/**
 * Random strings. The random source is a parameter: `draw(i)` stands for
 * the number `random.choice` picks from for the i-th character.
 */
module Random {

  type Draw = nat -> nat

  /** `[random.choice(pool) for _ in range(n)]` */
  function Choices<T>(n: nat, pool: seq<T>, draw: Draw): (r: seq<T>)
    requires n > 0 ==> |pool| > 0
    ensures |r| == n
    ensures forall i :: 0 <= i < n ==> r[i] in pool
  {
    seq(n, i requires 0 <= i < n => pool[draw(i) % |pool|])
  }

  /** `''.join(random.choice(charset) for _ in range(n))` */
  function RandomString(n: nat, charset: string, draw: Draw): (r: string)
    requires n > 0 ==> |charset| > 0
    ensures |r| == n
    ensures forall i :: 0 <= i < n ==> r[i] in charset
  {
    Choices(n, charset, draw)
  }

  /**
   * Every string of length `n` over the character set is a possible result:
   * the generator is not confined to a subset of the strings it should cover.
   */
  lemma RandomStringCovers(n: nat, charset: string, target: string)
    requires |charset| > 0
    requires |target| == n && forall i :: 0 <= i < n ==> target[i] in charset
    ensures exists draw: Draw :: RandomString(n, charset, draw) == target
  {
    var draw: Draw := (i: nat) => if i < n then IndexIn(charset, target[i]) else 0;
    var r := RandomString(n, charset, draw);
    forall i | 0 <= i < n
      ensures r[i] == target[i]
    {
      var k := IndexIn(charset, target[i]);
      assert draw(i) == k;
      assert k % |charset| == k;
    }
  }

  /** Position of a character in a string that contains it. */
  function IndexIn(s: string, c: char): (k: nat)
    requires c in s
    ensures k < |s| && s[k] == c
  {
    if s[0] == c then 0 else 1 + IndexIn(s[1..], c)
  }
}
