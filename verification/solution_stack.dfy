/**
 * The Elastic Beanstalk solution stack finder: list the available solution
 * stacks, split each name into its parts, and take the first one whose
 * parts start with the requested platform, architecture, versions and AMI
 * prefix. Its name is the physical id; update does the same; delete does
 * nothing.
 *
 * A name has the shape `<arch> <ami>[ v<major>.<minor>.<patch>] running
 * <platform>`, for instance `64bit Amazon Linux 2018.03 v2.7.4 running
 * Python 3.6`. The splitting is written out by hand below, following how
 * the pattern `^(\w+) ([\w .]+?)(?: v(\d+)\.(\d+)\.(\d+))? running (.+)$`
 * matches: the shortest AMI after which the rest fits.
 */
module SolutionStackName {
  import opened Wrappers
  import opened Dicts
  import opened Values
  import opened Lifecycle
  import Strings

  datatype Version = Version(major: nat, minor: nat, patch: nat)

  /** The named groups of a match; the three version numbers come together or not at all. */
  datatype Parts = Parts(arch: string, ami: string, version: Option<Version>, platform: string)

  const Running: string := " running "

  predicate IsAmiChar(c: char) {
    Strings.IsWordChar(c) || c == ' ' || c == '.'
  }

  /** The length of the longest prefix of `s` whose characters satisfy `p`. */
  function Span(s: string, p: char -> bool): (n: nat)
    ensures n <= |s|
    ensures forall i :: 0 <= i < n ==> p(s[i])
    ensures n < |s| ==> !p(s[n])
  {
    if |s| == 0 || !p(s[0]) then 0 else 1 + Span(s[1..], p)
  }

  lemma {:induction false} SpanOf(a: string, b: string, p: char -> bool)
    requires forall i :: 0 <= i < |a| ==> p(a[i])
    requires |b| > 0 ==> !p(b[0])
    ensures Span(a + b, p) == |a|
    decreases |a|
  {
    if |a| > 0 {
      assert (a + b)[1..] == a[1..] + b;
      SpanOf(a[1..], b, p);
    } else {
      assert a + b == b;
    }
  }

  /** ` running (.+)$`: the platform, which is not empty and has no line break. */
  function RunningTail(t: string): Option<string> {
    if |t| > |Running| && t[..|Running|] == Running && '\n' !in t[|Running|..] then Some(t[|Running|..]) else None
  }

  /** `\d+`: the number a run of digits spells, and what follows it. */
  function Digits(t: string): Option<(nat, string)> {
    var n := Span(t, Strings.IsDigit);
    if n == 0 then None
    else
      assert Strings.AllDigits(t[..n]);
      Some((Strings.ParseNat(t[..n]), t[n..]))
  }

  lemma DigitsOf(n: nat, rest: string)
    requires |rest| > 0 && !Strings.IsDigit(rest[0])
    ensures Digits(Strings.NatToString(n) + rest) == Some((n, rest))
  {
    var s := Strings.NatToString(n);
    SpanOf(s, rest, Strings.IsDigit);
    assert (s + rest)[..|s|] == s;
    assert (s + rest)[|s|..] == rest;
    Strings.ParseNatToString(n);
  }

  /** `\.` followed by `\d+` */
  function DotDigits(t: string): Option<(nat, string)> {
    if |t| == 0 || t[0] != '.' then None else Digits(t[1..])
  }

  /** ` v(\d+)\.(\d+)\.(\d+) running (.+)$` */
  function VersionTail(t: string): Option<(Version, string)> {
    if |t| < 2 || t[0] != ' ' || t[1] != 'v' then None
    else
      var major := Digits(t[2..]);
      if major.None? then None
      else
        var minor := DotDigits(major.value.1);
        if minor.None? then None
        else
          var patch := DotDigits(minor.value.1);
          if patch.None? then None
          else
            var platform := RunningTail(patch.value.1);
            if platform.None? then None
            else Some((Version(major.value.0, minor.value.0, patch.value.0), platform.value))
  }

  /**
   * What may follow the AMI: the version group if it fits (the `?` is
   * greedy), else directly ` running <platform>`.
   */
  function Tail(t: string): Option<(Option<Version>, string)> {
    match VersionTail(t)
    case Some((v, platform)) => Some((Some(v), platform))
    case None =>
      match RunningTail(t)
      case Some(platform) => Some((None, platform))
      case None => None
  }

  /** A space and then 'v' or 'r': how anything that can follow the AMI begins. */
  predicate StartsLikeTail(t: string) {
    |t| >= 2 && t[0] == ' ' && (t[1] == 'v' || t[1] == 'r')
  }

  lemma TailStart(t: string)
    ensures Tail(t).Some? ==> StartsLikeTail(t)
  {
    if Tail(t).Some? && VersionTail(t).None? {
      assert t[..|Running|] == Running;
    }
  }

  /**
   * The lazy `[\w .]+?`, followed by what `tail` matches: try AMIs of length `n`, `n + 1`, ... of the text
   * after the architecture, stopping at the first after which the rest
   * fits, or at a character an AMI cannot hold.
   */
  function Lazy(r: string, n: nat, tail: string -> Option<(Option<Version>, string)>): Option<(string, Option<Version>, string)>
    requires n >= 1
    decreases |r| + 1 - n
  {
    if n > |r| || !IsAmiChar(r[n - 1]) then None
    else
      match tail(r[n..])
      case Some((v, platform)) => Some((r[..n], v, platform))
      case None => Lazy(r, n + 1, tail)
  }

  /** `split_solution_stack_name`: the parts of a name, or None where Python's `match` is None. */
  function Split(name: string): Option<Parts> {
    var n := Span(name, Strings.IsWordChar);
    if n == 0 || n == |name| || name[n] != ' ' then None
    else
      match Lazy(name[n + 1..], 1, Tail)
      case None => None
      case Some((ami, v, platform)) => Some(Parts(name[..n], ami, v, platform))
  }

  function VersionText(v: Option<Version>): string {
    match v
    case None => ""
    case Some(Version(major, minor, patch)) =>
      " v" + Strings.NatToString(major) + "." + Strings.NatToString(minor) + "." + Strings.NatToString(patch)
  }

  /** A solution stack name with the given parts. */
  function Name(p: Parts): string {
    p.arch + " " + p.ami + VersionText(p.version) + Running + p.platform
  }

  /** No shorter AMI than the whole of `ami` leaves a rest that fits. */
  ghost predicate NoEarlierSplit(ami: string, tail: string, rest: string -> Option<(Option<Version>, string)>) {
    forall n :: 1 <= n < |ami| ==> rest(ami[n..] + tail).None?
  }

  predicate WellFormed(p: Parts) {
    |p.arch| > 0 && (forall i :: 0 <= i < |p.arch| ==> Strings.IsWordChar(p.arch[i])) &&
    |p.ami| > 0 && (forall i :: 0 <= i < |p.ami| ==> IsAmiChar(p.ami[i])) &&
    |p.platform| > 0 && '\n' !in p.platform
  }

  lemma RunningTailOf(platform: string)
    requires |platform| > 0 && '\n' !in platform
    ensures RunningTail(Running + platform) == Some(platform)
    ensures VersionTail(Running + platform).None?
  {
    assert (Running + platform)[1] == 'r';
    assert (Running + platform)[..|Running|] == Running;
    assert (Running + platform)[|Running|..] == platform;
  }

  lemma DotDigitsOf(n: nat, rest: string)
    requires |rest| > 0 && !Strings.IsDigit(rest[0])
    ensures DotDigits("." + Strings.NatToString(n) + rest) == Some((n, rest))
  {
    assert ("." + Strings.NatToString(n) + rest)[1..] == Strings.NatToString(n) + rest;
    DigitsOf(n, rest);
  }

  lemma VersionTailOf(v: Version, platform: string)
    requires |platform| > 0 && '\n' !in platform
    ensures VersionTail(VersionText(Some(v)) + Running + platform) == Some((v, platform))
  {
    var r3 := Running + platform;
    var r2 := "." + Strings.NatToString(v.patch) + r3;
    var r1 := "." + Strings.NatToString(v.minor) + r2;
    var t := VersionText(Some(v)) + Running + platform;
    assert |t| >= 2 && t[0] == ' ' && t[1] == 'v' && Digits(t[2..]) == Some((v.major, r1)) by {
      assert t == " v" + (Strings.NatToString(v.major) + r1);
      assert t[2..] == Strings.NatToString(v.major) + r1;
      DigitsOf(v.major, r1);
    }
    DotDigitsOf(v.minor, r2);
    DotDigitsOf(v.patch, r3);
    RunningTailOf(platform);
    VersionTailSteps(t, v, r1, r2, r3, platform);
  }

  lemma VersionTailSteps(t: string, v: Version, r1: string, r2: string, r3: string, platform: string)
    requires |t| >= 2 && t[0] == ' ' && t[1] == 'v'
    requires Digits(t[2..]) == Some((v.major, r1))
    requires DotDigits(r1) == Some((v.minor, r2))
    requires DotDigits(r2) == Some((v.patch, r3))
    requires RunningTail(r3) == Some(platform)
    ensures VersionTail(t) == Some((v, platform))
  {
  }

  /** The text after the AMI gives back the version and the platform. */
  lemma TailOfName(v: Option<Version>, platform: string)
    requires |platform| > 0 && '\n' !in platform
    ensures Tail(VersionText(v) + Running + platform) == Some((v, platform))
  {
    if v.None? {
      assert VersionText(v) + Running + platform == Running + platform;
      RunningTailOf(platform);
    } else {
      VersionTailOf(v.value, platform);
    }
  }

  /** The text after the AMI starts with a space. */
  lemma TailTextStart(v: Option<Version>, platform: string)
    ensures |VersionText(v) + Running + platform| > 0 && (VersionText(v) + Running + platform)[0] == ' '
  {
    if v.None? {
      assert VersionText(v) + Running + platform == Running + platform;
    } else {
      assert VersionText(v)[0] == ' ';
    }
  }

  /** From AMI length `n` on, the lazy search ends at the whole AMI. */
  lemma {:induction false} LazyFindsAmi(ami: string, tail: string, n: nat, v: Option<Version>, platform: string,
                                        rest: string -> Option<(Option<Version>, string)>)
    requires 1 <= n <= |ami|
    requires forall i :: 0 <= i < |ami| ==> IsAmiChar(ami[i])
    requires NoEarlierSplit(ami, tail, rest)
    requires rest(tail) == Some((v, platform))
    ensures Lazy(ami + tail, n, rest) == Some((ami, v, platform))
    decreases |ami| - n
  {
    var r := ami + tail;
    assert IsAmiChar(r[n - 1]) by {
      assert r[n - 1] == ami[n - 1];
    }
    if n == |ami| {
      assert r[n..] == tail && r[..n] == ami;
    } else {
      assert rest(r[n..]).None? by {
        assert r[n..] == ami[n..] + tail;
      }
      LazyFindsAmi(ami, tail, n + 1, v, platform, rest);
    }
  }

  /**
   * Splitting a well-formed name gives back its parts, provided no shorter
   * AMI would already let the rest fit.
   */
  lemma SplitName(p: Parts)
    requires WellFormed(p)
    requires NoEarlierSplit(p.ami, VersionText(p.version) + Running + p.platform, Tail)
    ensures Split(Name(p)) == Some(p)
  {
    var tail := VersionText(p.version) + Running + p.platform;
    assert Name(p) == p.arch + " " + (p.ami + tail);
    SplitAfterArch(p.arch, p.ami + tail);
    TailOfName(p.version, p.platform);
    LazyFindsAmi(p.ami, tail, 1, p.version, p.platform, Tail);
  }

  /** A word and a space are taken as the architecture, and the rest is searched lazily. */
  lemma SplitAfterArch(arch: string, r: string)
    requires |arch| > 0 && forall i :: 0 <= i < |arch| ==> Strings.IsWordChar(arch[i])
    ensures Split(arch + " " + r) ==
      match Lazy(r, 1, Tail)
      case None => None
      case Some((ami, v, platform)) => Some(Parts(arch, ami, v, platform))
  {
    var s := arch + " " + r;
    assert s == arch + (" " + r);
    SpanOf(arch, " " + r, Strings.IsWordChar);
    assert s[|arch|] == ' ' && s[|arch| + 1..] == r && s[..|arch|] == arch;
  }

  /** No space inside the AMI (past its first character) is followed by 'v' or 'r'. */
  predicate NoTailInside(ami: string) {
    forall n :: 1 <= n < |ami| - 1 ==> ami[n] != ' ' || (ami[n + 1] != 'v' && ami[n + 1] != 'r')
  }

  /**
   * An AMI without such a space cannot be cut short: no shorter AMI leaves
   * a rest that fits, for any rest-pattern that only fits text starting
   * like a tail, when the text after the AMI starts with a space.
   */
  lemma NoEarlierSplitWhen(ami: string, tail: string, rest: string -> Option<(Option<Version>, string)>)
    requires NoTailInside(ami)
    requires |tail| > 0 && tail[0] == ' '
    requires forall t :: rest(t).Some? ==> StartsLikeTail(t)
    ensures NoEarlierSplit(ami, tail, rest)
  {
    forall n | 1 <= n < |ami| ensures rest(ami[n..] + tail).None? {
      var t := ami[n..] + tail;
      assert t[0] == ami[n];
      assert t[1] == if n + 1 < |ami| then ami[n + 1] else tail[0];
    }
  }

  lemma NoEarlierSplitOf(ami: string, v: Option<Version>, platform: string)
    requires NoTailInside(ami)
    ensures NoEarlierSplit(ami, VersionText(v) + Running + platform, Tail)
  {
    TailTextStart(v, platform);
    forall t ensures Tail(t).Some? ==> StartsLikeTail(t) {
      TailStart(t);
    }
    NoEarlierSplitWhen(ami, VersionText(v) + Running + platform, Tail);
  }

  const ExampleParts := Parts("64bit", "Amazon Linux 2018.03", Some(Version(2, 7, 4)), "Python 3.6")

  lemma ExampleVersion()
    ensures VersionText(ExampleParts.version) == " v2.7.4"
  {
    assert Strings.NatToString(2) == "2" && Strings.NatToString(7) == "7" && Strings.NatToString(4) == "4";
  }

  lemma ExampleName()
    ensures Name(ExampleParts) == "64bit Amazon Linux 2018.03 v2.7.4 running Python 3.6"
  {
    ExampleVersion();
    assert Name(ExampleParts) == "64bit" + " " + "Amazon Linux 2018.03" + " v2.7.4" + " running " + "Python 3.6";
    ExampleText();
  }

  lemma ExampleText()
    ensures "64bit" + " " + "Amazon Linux 2018.03" + " v2.7.4" + " running " + "Python 3.6" ==
            "64bit Amazon Linux 2018.03 v2.7.4 running Python 3.6"
  {
    assert "64bit" + " " + "Amazon Linux 2018.03" == "64bit Amazon Linux 2018.03";
    assert "64bit Amazon Linux 2018.03" + " v2.7.4" == "64bit Amazon Linux 2018.03 v2.7.4";
    assert "64bit Amazon Linux 2018.03 v2.7.4" + " running " == "64bit Amazon Linux 2018.03 v2.7.4 running ";
  }

  lemma ExampleWellFormed()
    ensures WellFormed(ExampleParts)
  {
  }

  lemma ExampleNoTailInside()
    ensures NoTailInside(ExampleParts.ami)
  {
  }

  /** The example from the provider's tests. */
  lemma SplitExample()
    ensures Split("64bit Amazon Linux 2018.03 v2.7.4 running Python 3.6") ==
            Some(Parts("64bit", "Amazon Linux 2018.03", Some(Version(2, 7, 4)), "Python 3.6"))
  {
    ExampleName();
    ExampleWellFormed();
    ExampleNoTailInside();
    NoEarlierSplitOf(ExampleParts.ami, ExampleParts.version, ExampleParts.platform);
    SplitName(ExampleParts);
  }

  // ---------------------------------------------------------------- filter

  /** The filter entries in insertion order, and the AMI prefix. */
  datatype Filter = Filter(entries: Dict<Value>, amiStartsWith: Value)

  /**
   * Python's `int(v)`: a string must spell an integer (ValueError
   * otherwise), a boolean counts as 0 or 1, other types are a TypeError.
   */
  function IntOf(v: Value): (r: Result<int, Error>)
    ensures v.Int? ==> r == Ok(v.i)
    ensures v.Str? ==> (r.Ok? <==> Strings.ParseInt(v.s).Some?)
    ensures v.Str? && r.Ok? ==> Strings.ParseInt(v.s) == Some(r.value)
  {
    match v
    case Int(i) => Ok(i)
    case Bool(b) => Ok(if b then 1 else 0)
    case Str(s) => (match Strings.ParseInt(s) case Some(i) => Ok(i) case None => Err(ValueError("invalid literal for int()")))
    case _ => Err(TypeError("int() argument"))
  }

  /** The filter entry for a version property, when the property is not None. */
  function VersionEntry(props: Props, prop: string, key: string): Result<Dict<Value>, Error> {
    var v := GetValue(props, prop);
    if v.Null? then Ok([])
    else
      var i :- IntOf(v);
      Ok([(key, Int(i))])
  }

  /**
   * `validate`: Platform is required; Architecture defaults to '64bit'; a
   * version property that is not None is converted with `int()`, whose
   * errors are not caught; AmiStartsWith defaults to ''.
   */
  function Validate(props: Props): (r: Result<Filter, Error>)
    ensures !HasKey(props, "Platform") ==> r == Err(Invalid)
    ensures r.Ok? ==> (|r.value.entries| >= 2 &&
      r.value.entries[0] == ("platform", GetValue(props, "Platform")) &&
      r.value.entries[1] == ("arch", GetOr(props, "Architecture", Str("64bit"))))
    ensures r.Ok? ==> r.value.amiStartsWith == GetOr(props, "AmiStartsWith", Str(""))
    ensures r.Ok? ==> (|r.value.entries| == 2 <==>
      GetValue(props, "EbMajorVersion").Null? && GetValue(props, "EbMinorVersion").Null? && GetValue(props, "EbPatchVersion").Null?)
    ensures r.Ok? && !GetValue(props, "EbMajorVersion").Null? ==>
      IntOf(GetValue(props, "EbMajorVersion")).Ok? &&
      r.value.entries[2] == ("major", Int(IntOf(GetValue(props, "EbMajorVersion")).value))
  {
    if !HasKey(props, "Platform") then Err(Invalid)
    else
      var major :- VersionEntry(props, "EbMajorVersion", "major");
      var minor :- VersionEntry(props, "EbMinorVersion", "minor");
      var patch :- VersionEntry(props, "EbPatchVersion", "patch");
      Ok(Filter([("platform", GetValue(props, "Platform")), ("arch", GetOr(props, "Architecture", Str("64bit")))] +
                major + minor + patch,
                GetOr(props, "AmiStartsWith", Str(""))))
  }

  /** `group_dict`: the parts under their group names, versions as integers or None. */
  function GroupDict(p: Parts): Dict<Value> {
    [("arch", Str(p.arch)), ("ami", Str(p.ami)),
     ("major", if p.version.Some? then Int(p.version.value.major) else Null),
     ("minor", if p.version.Some? then Int(p.version.value.minor) else Null),
     ("patch", if p.version.Some? then Int(p.version.value.patch) else Null),
     ("platform", Str(p.platform))]
  }

  /** `component.startswith(prefix)`: only a string has it, and the prefix must be a string. */
  function StartsWithValue(component: Value, prefix: Value): (r: Result<bool, Error>)
    ensures component.Str? && prefix.Str? ==> r == Ok(Strings.StartsWith(component.s, prefix.s))
    ensures !component.Str? ==> r == Err(AttributeError("startswith"))
  {
    if !component.Str? then Err(AttributeError("startswith"))
    else if !prefix.Str? then Err(TypeError("startswith first arg must be str"))
    else Ok(Strings.StartsWith(component.s, prefix.s))
  }

  /** The loop over the filter entries, stopping at the first that does not match. */
  function EntriesMatch(entries: Dict<Value>, groups: Dict<Value>): Result<bool, Error>
    decreases |entries|
  {
    if |entries| == 0 then Ok(true)
    else
      var ok :- StartsWithValue(GetValue(groups, entries[0].0), entries[0].1);
      if !ok then Ok(false) else EntriesMatch(entries[1..], groups)
  }

  /** `filter_stack` as written. */
  function FilterStack(f: Filter, p: Parts): Result<bool, Error> {
    var ok :- EntriesMatch(f.entries, GroupDict(p));
    if !ok then Ok(false) else StartsWithValue(Str(p.ami), f.amiStartsWith)
  }

  lemma GroupDictValues(p: Parts)
    ensures GetValue(GroupDict(p), "platform") == Str(p.platform)
    ensures GetValue(GroupDict(p), "arch") == Str(p.arch)
    ensures GetValue(GroupDict(p), "major") == if p.version.Some? then Int(p.version.value.major) else Null
  {
    var g := GroupDict(p);
    assert g[0].0 == "arch" && g[1].0 == "ami" && g[2].0 == "major" && g[5].0 == "platform";
    assert g[3].0 == "minor" && g[4].0 == "patch";
    GetHead(g, "platform");
    GetHead(g[1..], "platform");
    GetHead(g[2..], "platform");
    GetHead(g[3..], "platform");
    GetHead(g[4..], "platform");
    GetHead(g[5..], "platform");
    GetHead(g, "arch");
    GetHead(g, "major");
    GetHead(g[1..], "major");
    GetHead(g[2..], "major");
  }

  /**
   * Without version filters, a stack passes exactly when its platform,
   * architecture and AMI start with the requested ones.
   */
  lemma FilterWithoutVersions(f: Filter, p: Parts, platform: string, arch: string, ami: string)
    requires f == Filter([("platform", Str(platform)), ("arch", Str(arch))], Str(ami))
    ensures FilterStack(f, p) == Ok(Strings.StartsWith(p.platform, platform) && Strings.StartsWith(p.arch, arch) &&
                                    Strings.StartsWith(p.ami, ami))
  {
    GroupDictValues(p);
    var g := GroupDict(p);
    var e := f.entries;
    assert e[1..][1..] == [];
    assert EntriesMatch(e[1..][1..], g) == Ok(true);
    assert EntriesMatch(e[1..], g) == Ok(Strings.StartsWith(p.arch, arch));
    assert EntriesMatch(e, g) == Ok(Strings.StartsWith(p.platform, platform) && Strings.StartsWith(p.arch, arch));
  }

  /**
   * A major version filter never filters: for any stack whose platform and
   * architecture match, `startswith` is looked up on an integer or None,
   * and the whole listing raises AttributeError.
   */
  lemma VersionFilterRaises(f: Filter, p: Parts, platform: string, arch: string, major: int)
    requires f.entries == [("platform", Str(platform)), ("arch", Str(arch)), ("major", Int(major))]
    requires Strings.StartsWith(p.platform, platform) && Strings.StartsWith(p.arch, arch)
    ensures FilterStack(f, p) == Err(AttributeError("startswith"))
  {
    GroupDictValues(p);
    var g := GroupDict(p);
    var e := f.entries;
    assert e[1..][1..] == [("major", Int(major))];
    assert !GetValue(g, "major").Str?;
    assert EntriesMatch(e[1..][1..], g) == Err(AttributeError("startswith"));
    assert EntriesMatch(e[1..], g) == Err(AttributeError("startswith"));
  }

  /** The stack's value for a version key. */
  function VersionPart(p: Parts, key: string): Option<int> {
    if p.version.None? then None
    else if key == "major" then Some(p.version.value.major)
    else if key == "minor" then Some(p.version.value.minor)
    else if key == "patch" then Some(p.version.value.patch)
    else None
  }

  /**
   * The filter as evidently intended: the string entries are prefixes, a
   * version entry must equal the stack's version number, and a stack
   * without a version fails a version filter.
   */
  function EntriesMatchIntended(entries: Dict<Value>, p: Parts): (r: Result<bool, Error>)
    ensures r == Ok(true) <==> forall i :: 0 <= i < |entries| ==> EntryHolds(entries[i], p)
    decreases |entries|
  {
    if |entries| == 0 then Ok(true)
    else
      var (key, value) := entries[0];
      var ok :- if key == "platform" || key == "arch" then StartsWithValue(if key == "platform" then Str(p.platform) else Str(p.arch), value)
                else if value.Int? then Ok(VersionPart(p, key) == Some(value.i))
                else Err(TypeError("version filter"));
      assert ok <==> EntryHolds(entries[0], p);
      var rest :- EntriesMatchIntended(entries[1..], p);
      assert forall i :: 1 <= i < |entries| ==> entries[1..][i - 1] == entries[i];
      Ok(ok && rest)
  }

  /** One entry of the intended filter holds for the stack. */
  predicate EntryHolds(e: (string, Value), p: Parts) {
    if e.0 == "platform" then e.1.Str? && Strings.StartsWith(p.platform, e.1.s)
    else if e.0 == "arch" then e.1.Str? && Strings.StartsWith(p.arch, e.1.s)
    else e.1.Int? && VersionPart(p, e.0) == Some(e.1.i)
  }

  function FilterStackIntended(f: Filter, p: Parts): (r: Result<bool, Error>)
    ensures r == Ok(true) <==> (forall i :: 0 <= i < |f.entries| ==> EntryHolds(f.entries[i], p)) &&
                               f.amiStartsWith.Str? && Strings.StartsWith(p.ami, f.amiStartsWith.s)
  {
    var ok :- EntriesMatchIntended(f.entries, p);
    if !ok then Ok(false) else StartsWithValue(Str(p.ami), f.amiStartsWith)
  }

  // ---------------------------------------------------------------- create

  /** A name that does not split raises AttributeError (`None.groupdict()`). */
  function Check(f: Filter, name: string): Result<bool, Error> {
    match Split(name)
    case None => Err(AttributeError("groupdict"))
    case Some(p) => FilterStack(f, p)
  }

  /**
   * The list comprehension keeping the names `check` accepts, in their
   * order; the first error stops it.
   */
  function Filtered(names: seq<string>, check: string -> Result<bool, Error>): (r: Result<seq<string>, Error>)
    ensures r.Ok? ==> forall i :: 0 <= i < |names| ==> check(names[i]).Ok?
    ensures r.Ok? ==> forall x :: x in r.value <==> exists i :: 0 <= i < |names| && names[i] == x && check(x) == Ok(true)
    ensures r.Ok? && |r.value| > 0 ==>
      exists i :: (0 <= i < |names| && names[i] == r.value[0] && check(names[i]) == Ok(true) &&
                   forall j :: 0 <= j < i ==> check(names[j]) != Ok(true))
    ensures (forall i :: 0 <= i < |names| ==> check(names[i]) == Ok(false)) ==> r == Ok([])
    decreases |names|
  {
    if |names| == 0 then Ok([])
    else
      var keep :- check(names[0]);
      var rest :- Filtered(names[1..], check);
      assert forall i :: 1 <= i < |names| ==> names[1..][i - 1] == names[i];
      if keep then Ok([names[0]] + rest) else Ok(rest)
  }

  /**
   * `create` (and `update`): the physical id is the first stack in the
   * listing that splits and passes the filter; none gives IndexError.
   */
  function Create(f: Filter, listing: Value): (r: Result<string, Error>)
    ensures r.Ok? ==> exists names, i :: (Index(listing, "SolutionStacks") == Ok(StrList(names)) &&
      0 <= i < |names| && r.value == names[i] && Check(f, names[i]) == Ok(true) &&
      forall j :: 0 <= j < i ==> Check(f, names[j]) != Ok(true))
  {
    var stacks :- Index(listing, "SolutionStacks");
    if !stacks.List? || exists i :: 0 <= i < |stacks.items| && !stacks.items[i].Str? then Err(TypeError("SolutionStacks"))
    else
      var names := seq(|stacks.items|, i requires 0 <= i < |stacks.items| => stacks.items[i].s);
      assert StrList(names) == stacks;
      var filtered :- Filtered(names, name => Check(f, name));
      if |filtered| == 0 then Err(IndexError) else Ok(filtered[0])
  }

  /** When every stack splits and is checked without error but none is accepted, `create` raises IndexError. */
  lemma NoMatchRaises(f: Filter, names: seq<string>)
    requires forall i :: 0 <= i < |names| ==> Check(f, names[i]) == Ok(false)
    ensures Create(f, Obj([("SolutionStacks", StrList(names))])) == Err(IndexError)
  {
    var listing := Obj([("SolutionStacks", StrList(names))]);
    assert listing.fields[0].0 == "SolutionStacks";
    GetHead(listing.fields, "SolutionStacks");
    var stacks := StrList(names);
    var names' := seq(|stacks.items|, i requires 0 <= i < |stacks.items| => stacks.items[i].s);
    assert names' == names;
  }
}
