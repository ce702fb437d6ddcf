/**
 * UTF-8 encoding of text and the Base64 encoding of section 4 of RFC 4648
 * (alphabet A-Z a-z 0-9 + /, '=' padding), the two steps of the 'base64'
 * parameter encoding. Both come with their decoders and round-trip lemmas.
 */
module Base64 {
  import opened Wrappers

  type byte = b: int | 0 <= b < 256

  // ---------------------------------------------------------------- arithmetic

  lemma DivModUnique(x: int, m: int, q: int, r: int)
    requires m > 0 && 0 <= r < m && x == q * m + r
    ensures x / m == q && x % m == r
  {
    var q', r' := x / m, x % m;
    assert q * m - q' * m == r' - r;
    assert (q - q') * m == r' - r;
    if q > q' {
      MulAtLeast(q - q', m);
    } else if q < q' {
      MulAtLeast(q' - q, m);
    }
  }

  lemma MulAtLeast(a: int, m: int)
    requires a >= 1 && m > 0
    ensures a * m >= m
  {
  }

  lemma DivDiv(x: nat, a: nat, b: nat)
    requires a > 0 && b > 0
    ensures x / a / b == x / (a * b)
  {
    var q := x / a / b;
    var r := x / a % b;
    var s := x % a;
    assert x == (q * b + r) * a + s;
    assert x == q * (a * b) + (r * a + s);
    assert r * a + s < a * b by {
      assert r * a <= (b - 1) * a;
    }
    DivModUnique(x, a * b, q, r * a + s);
  }

  // ---------------------------------------------------------------- the alphabet

  /** The character for a 6-bit value. */
  function Sextet(i: nat): (c: char)
    requires i < 64
    ensures c != '='
  {
    if i < 26 then (('A' as int) + i) as char
    else if i < 52 then (('a' as int) + i - 26) as char
    else if i < 62 then (('0' as int) + i - 52) as char
    else if i == 62 then '+'
    else '/'
  }

  /** The 6-bit value of an alphabet character. */
  function SextetValue(c: char): (r: Option<nat>)
    ensures r.Some? ==> r.value < 64 && Sextet(r.value) == c
  {
    if 'A' <= c <= 'Z' then Some((c as int) - ('A' as int))
    else if 'a' <= c <= 'z' then Some((c as int) - ('a' as int) + 26)
    else if '0' <= c <= '9' then Some((c as int) - ('0' as int) + 52)
    else if c == '+' then Some(62)
    else if c == '/' then Some(63)
    else None
  }

  lemma SextetRoundTrip(i: nat)
    requires i < 64
    ensures SextetValue(Sextet(i)) == Some(i)
  {
  }

  // ---------------------------------------------------------------- blocks

  /** Four characters for the 24-bit number `n`. */
  function Quad(n: nat): string
    requires n < 0x100_0000
  {
    [Sextet(n / 0x4_0000), Sextet(n / 0x1000 % 64), Sextet(n / 64 % 64), Sextet(n % 64)]
  }

  /** Three bytes as one 24-bit number, most significant first. */
  function Pack(a: byte, b: byte, c: byte): (n: nat)
    ensures n < 0x100_0000
  {
    a * 0x1_0000 + b * 0x100 + c
  }

  /** The bytes of a 24-bit number. */
  function Unpack(n: nat): seq<byte>
    requires n < 0x100_0000
  {
    [n / 0x1_0000, n / 0x100 % 0x100, n % 0x100]
  }

  lemma UnpackPack(a: byte, b: byte, c: byte)
    ensures Unpack(Pack(a, b, c)) == [a, b, c]
  {
    var n := Pack(a, b, c);
    DivModUnique(n, 0x1_0000, a, b * 0x100 + c);
    DivModUnique(n, 0x100, a * 0x100 + b, c);
    DivModUnique(a * 0x100 + b, 0x100, a, b);
  }

  /** The 24-bit number four sextets stand for. */
  function Join4(v0: nat, v1: nat, v2: nat, v3: nat): nat {
    v0 * 0x4_0000 + v1 * 0x1000 + v2 * 64 + v3
  }

  lemma Join4Split(n: nat)
    requires n < 0x100_0000
    ensures Join4(n / 0x4_0000, n / 0x1000 % 64, n / 64 % 64, n % 64) == n
  {
    DivDiv(n, 64, 64);
    DivDiv(n, 0x1000, 64);
    var q1 := n / 64;
    var q2 := q1 / 64;
    var q3 := q2 / 64;
    assert n == q1 * 64 + n % 64;
    assert q1 == q2 * 64 + q1 % 64;
    assert q2 == q3 * 64 + q2 % 64;
  }

  // ---------------------------------------------------------------- Base64

  /** `base64.b64encode`: whole 3-byte groups, then a padded tail. */
  function Encode(b: seq<byte>): (s: string)
    decreases |b|
  {
    if |b| == 0 then ""
    else if |b| == 1 then Quad(Pack(b[0], 0, 0))[..2] + "=="
    else if |b| == 2 then Quad(Pack(b[0], b[1], 0))[..3] + "="
    else Quad(Pack(b[0], b[1], b[2])) + Encode(b[3..])
  }

  /** The 24-bit number of four characters, if they are all alphabet characters. */
  function QuadValue(s: string): Option<nat>
    requires |s| == 4
  {
    match (SextetValue(s[0]), SextetValue(s[1]), SextetValue(s[2]), SextetValue(s[3]))
    case (Some(v0), Some(v1), Some(v2), Some(v3)) => Some(Join4(v0, v1, v2, v3))
    case _ => None
  }

  /** The bytes of one four-character group; only the last group may be padded. */
  function DecodeGroup(g: string, last: bool): Option<seq<byte>>
    requires |g| == 4
  {
    if last && g[2..] == "==" then
      match QuadValue(g[..2] + "AA")
      case Some(n) => if n < 0x100_0000 then Some(Unpack(n)[..1]) else None
      case None => None
    else if last && g[3] == '=' then
      match QuadValue(g[..3] + "A")
      case Some(n) => if n < 0x100_0000 then Some(Unpack(n)[..2]) else None
      case None => None
    else
      match QuadValue(g)
      case Some(n) => if n < 0x100_0000 then Some(Unpack(n)) else None
      case None => None
  }

  /** Decoding of padded Base64 text; None if it is not well-formed. */
  function Decode(s: string): Option<seq<byte>>
    decreases |s|
  {
    if |s| == 0 then Some([])
    else if |s| < 4 then None
    else
      match DecodeGroup(s[..4], |s| == 4)
      case None => None
      case Some(head) =>
        match Decode(s[4..])
        case None => None
        case Some(rest) => Some(head + rest)
  }

  lemma QuadValueQuad(n: nat)
    requires n < 0x100_0000
    ensures QuadValue(Quad(n)) == Some(n)
  {
    SextetRoundTrip(n / 0x4_0000);
    SextetRoundTrip(n / 0x1000 % 64);
    SextetRoundTrip(n / 64 % 64);
    SextetRoundTrip(n % 64);
    Join4Split(n);
  }

  lemma DecodeOne(a: byte)
    ensures Decode(Encode([a])) == Some([a])
  {
    var n := Pack(a, 0, 0);
    var q := Quad(n);
    var g := q[..2] + "==";
    assert Encode([a]) == g;
    assert g[..2] + "AA" == q by {
      DivModUnique(n, 64, a * 1024, 0);
      DivModUnique(a * 1024, 64, a * 16, 0);
    }
    QuadValueQuad(n);
    UnpackPack(a, 0, 0);
    assert g[2..] == "==";
    DecodeGroupOne(g, n);
    assert Unpack(n)[..1] == [a];
    DecodeSingle(g);
  }

  lemma DecodeTwo(a: byte, b: byte)
    ensures Decode(Encode([a, b])) == Some([a, b])
  {
    var n := Pack(a, b, 0);
    var q := Quad(n);
    var g := q[..3] + "=";
    assert Encode([a, b]) == g;
    assert g[2] != '=';
    assert g[..3] + "A" == q by {
      DivModUnique(n, 64, a * 1024 + b * 4, 0);
    }
    QuadValueQuad(n);
    UnpackPack(a, b, 0);
    assert g[2..] != "==" && g[3] == '=';
    DecodeGroupTwo(g, n);
    assert Unpack(n)[..2] == [a, b];
    DecodeSingle(g);
  }

  lemma DecodeGroupOne(g: string, n: nat)
    requires |g| == 4 && g[2..] == "=="
    requires QuadValue(g[..2] + "AA") == Some(n) && n < 0x100_0000
    ensures DecodeGroup(g, true) == Some(Unpack(n)[..1])
  {
  }

  lemma DecodeGroupTwo(g: string, n: nat)
    requires |g| == 4 && g[2..] != "==" && g[3] == '='
    requires QuadValue(g[..3] + "A") == Some(n) && n < 0x100_0000
    ensures DecodeGroup(g, true) == Some(Unpack(n)[..2])
  {
  }

  lemma DecodeGroupQuad(n: nat, last: bool)
    requires n < 0x100_0000
    ensures DecodeGroup(Quad(n), last) == Some(Unpack(n))
  {
    var q := Quad(n);
    assert q[2] != '=' && q[3] != '=';
    assert q[2..] != "==";
    QuadValueQuad(n);
  }

  lemma DecodeBlock(b: seq<byte>)
    requires |b| >= 3
    requires Decode(Encode(b[3..])) == Some(b[3..])
    ensures Decode(Encode(b)) == Some(b)
  {
    EncodeBlock(b);
    DecodeBlockOf(b, Encode(b[3..]));
  }

  /** Three bytes' group followed by the encoding of the rest decodes to all of them. */
  lemma DecodeBlockOf(b: seq<byte>, rest: string)
    requires |b| >= 3
    ensures Decode(rest) == Some(b[3..]) ==> Decode(Quad(Pack(b[0], b[1], b[2])) + rest) == Some(b)
  {
    var s := Quad(Pack(b[0], b[1], b[2])) + rest;
    assert s[..4] == Quad(Pack(b[0], b[1], b[2]));
    assert s[4..] == rest;
    GroupOfBlock(b, |s| == 4);
    DecodeCons(s);
    assert b == b[..3] + b[3..];
  }

  /** A text of one group decodes as that group, padding allowed. */
  lemma DecodeSingle(g: string)
    requires |g| == 4
    ensures Decode(g) == DecodeGroup(g, true)
  {
    assert g[..4] == g;
    assert g[4..] == "";
    if DecodeGroup(g, true).Some? {
      var h := DecodeGroup(g, true).value;
      assert h + [] == h;
    }
  }

  /** The group encoding three bytes decodes to those bytes. */
  lemma GroupOfBlock(b: seq<byte>, last: bool)
    requires |b| >= 3
    ensures DecodeGroup(Quad(Pack(b[0], b[1], b[2])), last) == Some(b[..3])
  {
    DecodeGroupQuad(Pack(b[0], b[1], b[2]), last);
    UnpackPack(b[0], b[1], b[2]);
    assert b[..3] == [b[0], b[1], b[2]];
  }

  /** A longer text decodes as its first group followed by the rest. */
  lemma DecodeCons(s: string)
    requires |s| >= 4
    ensures DecodeGroup(s[..4], |s| == 4).Some? && Decode(s[4..]).Some? ==>
      Decode(s) == Some(DecodeGroup(s[..4], |s| == 4).value + Decode(s[4..]).value)
  {
  }

  lemma EncodeBlock(b: seq<byte>)
    requires |b| >= 3
    ensures |Encode(b)| >= 4
    ensures Encode(b)[..4] == Quad(Pack(b[0], b[1], b[2]))
    ensures Encode(b)[4..] == Encode(b[3..])
    ensures Encode(b) == Quad(Pack(b[0], b[1], b[2])) + Encode(b[3..])
  {
    assert Encode(b) == Quad(Pack(b[0], b[1], b[2])) + Encode(b[3..]);
  }

  /** Base64 decoding undoes encoding. */
  lemma {:induction false} DecodeEncode(b: seq<byte>)
    ensures Decode(Encode(b)) == Some(b)
    decreases |b|
  {
    if |b| == 1 {
      assert b == [b[0]];
      DecodeOne(b[0]);
    } else if |b| == 2 {
      assert b == [b[0], b[1]];
      DecodeTwo(b[0], b[1]);
    } else if |b| >= 3 {
      DecodeEncode(b[3..]);
      DecodeBlock(b);
    }
  }

  // ---------------------------------------------------------------- UTF-8

  /** The UTF-8 bytes of one character (a Unicode scalar value). */
  function Utf8Char(c: char): (bs: seq<byte>)
    ensures 1 <= |bs| <= 4
  {
    var cp := c as int;
    if cp < 0x80 then [cp]
    else if cp < 0x800 then [0xC0 + cp / 64, 0x80 + cp % 64]
    else if cp < 0x1_0000 then [0xE0 + cp / 0x1000, 0x80 + cp / 64 % 64, 0x80 + cp % 64]
    else
      assert cp < 0x11_0000;
      [0xF0 + cp / 0x4_0000, 0x80 + cp / 0x1000 % 64, 0x80 + cp / 64 % 64, 0x80 + cp % 64]
  }

  /** `s.encode('utf-8')` */
  function Utf8Encode(s: string): seq<byte>
  {
    if |s| == 0 then [] else Utf8Char(s[0]) + Utf8Encode(s[1..])
  }

  /** Whether a byte is a continuation byte `10xxxxxx`. */
  predicate Cont(b: byte) {
    0x80 <= b < 0xC0
  }

  /** The code point of the sequence starting a UTF-8 text, and its length. */
  function Utf8Head(bs: seq<byte>): Option<(int, nat)>
    requires |bs| > 0
  {
    var b0 := bs[0] as int;
    var b1 := if |bs| > 1 then bs[1] as int else 0;
    var b2 := if |bs| > 2 then bs[2] as int else 0;
    var b3 := if |bs| > 3 then bs[3] as int else 0;
    if b0 < 0x80 then Some((b0, 1))
    else if 0xC0 <= b0 < 0xE0 && |bs| >= 2 && Cont(bs[1]) then
      Some(((b0 - 0xC0) * 64 + (b1 - 0x80), 2))
    else if 0xE0 <= b0 < 0xF0 && |bs| >= 3 && Cont(bs[1]) && Cont(bs[2]) then
      Some(((b0 - 0xE0) * 0x1000 + (b1 - 0x80) * 64 + (b2 - 0x80), 3))
    else if 0xF0 <= b0 < 0xF8 && |bs| >= 4 && Cont(bs[1]) && Cont(bs[2]) && Cont(bs[3]) then
      Some(((b0 - 0xF0) * 0x4_0000 + (b1 - 0x80) * 0x1000 + (b2 - 0x80) * 64 + (b3 - 0x80), 4))
    else None
  }

  predicate IsScalar(cp: int) {
    (0 <= cp < 0xD800) || (0xE000 <= cp < 0x11_0000)
  }

  /** `bs.decode('utf-8')`, on the encodings `Utf8Encode` produces. */
  function Utf8Decode(bs: seq<byte>): Option<string>
    decreases |bs|
  {
    if |bs| == 0 then Some("")
    else
      match Utf8Head(bs)
      case None => None
      case Some((cp, n)) =>
        if n > |bs| || !IsScalar(cp) then None
        else
          match Utf8Decode(bs[n..])
          case None => None
          case Some(rest) => Some([cp as char] + rest)
  }

  lemma Utf8HeadChar(c: char, tail: seq<byte>)
    ensures Utf8Head(Utf8Char(c) + tail) == Some((c as int, |Utf8Char(c)|))
  {
    var cp := c as int;
    var bs := Utf8Char(c) + tail;
    if cp < 0x80 {
    } else if cp < 0x800 {
      DivModUnique(cp, 64, cp / 64, cp % 64);
    } else if cp < 0x1_0000 {
      DivDiv(cp, 64, 64);
      assert cp == (cp / 64) * 64 + cp % 64;
      assert cp / 64 == (cp / 0x1000) * 64 + cp / 64 % 64;
    } else {
      DivDiv(cp, 64, 64);
      DivDiv(cp, 0x1000, 64);
      assert cp == (cp / 64) * 64 + cp % 64;
      assert cp / 64 == (cp / 0x1000) * 64 + cp / 64 % 64;
      assert cp / 0x1000 == (cp / 0x4_0000) * 64 + cp / 0x1000 % 64;
    }
  }

  /** UTF-8 decoding undoes encoding. */
  lemma {:induction false} Utf8DecodeEncode(s: string)
    ensures Utf8Decode(Utf8Encode(s)) == Some(s)
    decreases |s|
  {
    if |s| > 0 {
      var head := Utf8Char(s[0]);
      var tail := Utf8Encode(s[1..]);
      Utf8HeadChar(s[0], tail);
      assert (head + tail)[|head|..] == tail;
      Utf8DecodeEncode(s[1..]);
      assert s == [s[0]] + s[1..];
    }
  }

  /** The 'base64' parameter encoding: Base64 of the UTF-8 bytes. */
  function EncodeText(s: string): string {
    Encode(Utf8Encode(s))
  }

  /** Decoding the Base64 text and then the UTF-8 bytes gives the original text. */
  lemma EncodeTextRoundTrip(s: string)
    ensures Decode(EncodeText(s)).Some?
    ensures Utf8Decode(Decode(EncodeText(s)).value) == Some(s)
  {
    DecodeEncode(Utf8Encode(s));
    Utf8DecodeEncode(s);
  }
}
