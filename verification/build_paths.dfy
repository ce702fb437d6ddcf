/**
 * The path helpers of the build script, on POSIX paths: `os.path.split`
 * and `os.path.join`, and the script's `rec_split_path` and
 * `rec_join_path` that apply them repeatedly.
 */
module BuildPaths {
  import Strings

  predicate AllSlashes(s: string) {
    forall i :: 0 <= i < |s| ==> s[i] == '/'
  }

  /** Index just past the last '/' of `p`; 0 when it has none. */
  function AfterLastSlash(p: string): (i: nat)
    ensures i <= |p|
    ensures i > 0 ==> p[i - 1] == '/'
    ensures '/' !in p[i..]
    ensures i == 0 ==> '/' !in p
    decreases |p|
  {
    if |p| == 0 then 0
    else if p[|p| - 1] == '/' then |p|
    else
      var i := AfterLastSlash(p[..|p| - 1]);
      assert p[i..] == p[..|p| - 1][i..] + [p[|p| - 1]];
      i
  }

  lemma {:induction false} AfterLastSlashAppend(a: string, b: string)
    requires '/' !in b
    ensures AfterLastSlash(a + "/" + b) == |a| + 1
    decreases |b|
  {
    if |b| > 0 {
      var p := a + "/" + b;
      assert p[..|p| - 1] == a + "/" + b[..|b| - 1];
      assert b[|b| - 1] in b;
      AfterLastSlashAppend(a, b[..|b| - 1]);
    }
  }

  /** `s.rstrip('/')` */
  function StripSlashes(s: string): (r: string)
    ensures |r| <= |s| && r == s[..|r|]
    ensures |r| > 0 ==> r[|r| - 1] != '/'
    ensures AllSlashes(s[|r|..])
    decreases |s|
  {
    if |s| == 0 || s[|s| - 1] != '/' then s
    else
      var r := StripSlashes(s[..|s| - 1]);
      assert s[|r|..] == s[..|s| - 1][|r|..] + ['/'];
      r
  }

  /**
   * `os.path.split(p)`: the text after the last '/', and the text before
   * it with trailing slashes removed unless it is all slashes.
   */
  function PathSplit(p: string): (r: (string, string))
    ensures '/' !in r.1
    ensures r.1 == p[AfterLastSlash(p)..]
  {
    var i := AfterLastSlash(p);
    var head := p[..i];
    (if head != "" && !AllSlashes(head) then StripSlashes(head) else head, p[i..])
  }

  predicate Relative(p: string) {
    p == "" || p[0] != '/'
  }

  /** On a relative path the head is a shorter relative path. */
  lemma SplitShrinks(p: string)
    requires |p| > 0 && Relative(p)
    ensures |PathSplit(p).0| < |p| && Relative(PathSplit(p).0)
  {
    var i := AfterLastSlash(p);
    if i > 0 {
      var head := p[..i];
      assert head[0] != '/';
      var r := StripSlashes(head);
      assert head[i - 1] == '/';
      assert |r| < i;
      if |r| > 0 {
        assert r[0] == head[0];
      }
    }
  }

  /**
   * On an absolute path the head is never empty and stays absolute: the
   * loop of `rec_split_path` (`os.path.split('/')` is `('/', '')`) never ends.
   */
  lemma AbsoluteNeverEmpties(p: string)
    requires |p| > 0 && p[0] == '/'
    ensures |PathSplit(p).0| > 0 && PathSplit(p).0[0] == '/'
  {
    var i := AfterLastSlash(p);
    assert p[0] in p;
    var head := p[..i];
    assert head[0] == '/';
    if !AllSlashes(head) {
      var r := StripSlashes(head);
      assert head[0..] == head;
      assert |r| > 0;
      assert r[0] == head[0];
    }
  }

  /** `rec_split_path`: the components of a relative path, first to last. */
  function RecSplit(path: string): (parts: seq<string>)
    requires Relative(path)
    decreases |path|
  {
    if |path| == 0 then []
    else
      SplitShrinks(path);
      RecSplit(PathSplit(path).0) + [PathSplit(path).1]
  }

  /** One round of `rec_split_path` peels the last component off. */
  lemma RecSplitStep(head: string)
    requires |head| > 0 && Relative(head)
    ensures |PathSplit(head).0| < |head| && Relative(PathSplit(head).0)
    ensures RecSplit(head) == RecSplit(PathSplit(head).0) + [PathSplit(head).1]
  {
    SplitShrinks(head);
  }

  /** The `while` loop of `rec_split_path`, inserting each tail at the front. */
  method RecSplitPath(path: string) returns (l: seq<string>)
    requires Relative(path)
    ensures l == RecSplit(path)
  {
    l := [];
    var head := path;
    while |head| > 0
      invariant Relative(head)
      invariant RecSplit(head) + l == RecSplit(path)
      decreases |head|
    {
      RecSplitStep(head);
      var h := PathSplit(head).0;
      var tail := PathSplit(head).1;
      Strings.ConcatAssoc(RecSplit(h), [tail], l);
      head, l := h, [tail] + l;
    }
  }

  /** Components: non-empty and without '/'. */
  predicate Components(parts: seq<string>) {
    forall i :: 0 <= i < |parts| ==> |parts[i]| > 0 && '/' !in parts[i]
  }

  lemma {:induction false} JoinShape(parts: seq<string>)
    requires |parts| >= 1 && Components(parts)
    ensures var j := Strings.Join(parts, "/");
      |j| > 0 && j[0] == parts[0][0] && j[|j| - 1] == parts[|parts| - 1][|parts[|parts| - 1]| - 1]
    decreases |parts|
  {
    if |parts| > 1 {
      JoinShape(parts[1..]);
    }
  }

  lemma {:induction false} JoinSnoc(parts: seq<string>)
    requires |parts| >= 2
    ensures Strings.Join(parts, "/") == Strings.Join(parts[..|parts| - 1], "/") + "/" + parts[|parts| - 1]
    decreases |parts|
  {
    if |parts| > 2 {
      JoinSnoc(parts[1..]);
      assert parts[1..][..|parts| - 2] == parts[..|parts| - 1][1..];
    }
  }

  /** A path without '/' splits into nothing and itself. */
  lemma SplitComponent(c: string)
    requires '/' !in c
    ensures PathSplit(c) == ("", c)
  {
  }

  lemma RecSplitComponent(c: string)
    requires |c| > 0 && '/' !in c
    ensures Relative(c) && RecSplit(c) == [c]
  {
    assert c[0] in c;
    SplitComponent(c);
    RecSplitStep(c);
    assert RecSplit("") == [];
  }

  /** `j/last` splits back into `j` and `last` when `j` ends in no '/'. */
  lemma SplitSnoc(j: string, last: string)
    requires |j| > 0 && j[0] != '/' && j[|j| - 1] != '/'
    requires '/' !in last
    ensures PathSplit(j + "/" + last) == (j, last)
  {
    var p := j + "/" + last;
    AfterLastSlashAppend(j, last);
    var head := p[..|j| + 1];
    assert head == j + "/";
    assert head[0] == j[0];
    assert !AllSlashes(head);
    assert head[..|head| - 1] == j;
    assert p[|j| + 1..] == last;
  }

  lemma RecSplitSnoc(j: string, last: string)
    requires |j| > 0 && j[0] != '/' && j[|j| - 1] != '/'
    requires '/' !in last
    ensures Relative(j + "/" + last)
    ensures RecSplit(j + "/" + last) == RecSplit(j) + [last]
  {
    SplitSnoc(j, last);
    RecSplitStep(j + "/" + last);
  }

  /** Splitting a path made of components gives back the components. */
  lemma {:induction false} RecSplitJoin(parts: seq<string>)
    requires |parts| >= 1 && Components(parts)
    ensures Relative(Strings.Join(parts, "/"))
    ensures RecSplit(Strings.Join(parts, "/")) == parts
    decreases |parts|
  {
    var last := parts[|parts| - 1];
    if |parts| == 1 {
      RecSplitComponent(last);
      assert parts == [last];
    } else {
      var init := parts[..|parts| - 1];
      assert Components(init);
      JoinSnoc(parts);
      JoinShape(init);
      assert init[0][0] in init[0];
      assert init[|init| - 1][|init[|init| - 1]| - 1] in init[|init| - 1];
      var j := Strings.Join(init, "/");
      assert Strings.Join(parts, "/") == j + "/" + last;
      RecSplitSnoc(j, last);
      RecSplitJoin(init);
      Strings.SnocSplit(parts);
    }
  }

  /** `os.path.join(a, b)` */
  function PathJoin(a: string, b: string): (r: string)
    ensures |b| > 0 && b[0] == '/' ==> r == b
  {
    if |b| > 0 && b[0] == '/' then b
    else if a == "" || a[|a| - 1] == '/' then a + b
    else a + "/" + b
  }

  function Fold(path: string, rest: seq<string>): string
    decreases |rest|
  {
    if |rest| == 0 then path else Fold(PathJoin(path, rest[0]), rest[1..])
  }

  /**
   * `rec_join_path`: the joined path and what is left of the argument list,
   * which the loop pops empty when it has two or more components.
   */
  function RecJoin(parts: seq<string>): (r: (string, seq<string>))
    ensures |parts| == 0 ==> r == ("", parts)
    ensures |parts| == 1 ==> r == (parts[0], parts)
    ensures |parts| >= 2 ==> r.1 == []
  {
    if |parts| == 0 then ("", parts)
    else if |parts| == 1 then (parts[0], parts)
    else (Fold(parts[0], parts[1..]), [])
  }

  lemma {:induction false} FoldJoin(path: string, rest: seq<string>)
    requires |path| > 0 && path[|path| - 1] != '/' && path[0] != '/'
    requires Components(rest)
    ensures Fold(path, rest) == Strings.Join([path] + rest, "/")
    decreases |rest|
  {
    if |rest| > 0 {
      var r0 := rest[0];
      assert r0[0] != '/' by { assert r0[0] in r0; }
      assert r0[|r0| - 1] != '/' by { assert r0[|r0| - 1] in r0; }
      var next := path + "/" + r0;
      assert PathJoin(path, r0) == next;
      assert Components(rest[1..]) by {
        forall i | 0 <= i < |rest[1..]| ensures |rest[1..][i]| > 0 && '/' !in rest[1..][i] {
          assert rest[1..][i] == rest[i + 1];
        }
      }
      FoldJoin(next, rest[1..]);
      assert ([path] + rest)[1..] == rest;
      if |rest| == 1 {
        assert Strings.Join([path] + rest, "/") == path + "/" + r0;
      } else {
        assert ([next] + rest[1..])[1..] == rest[1..];
        assert (rest)[1..] == rest[1..];
      }
    }
  }

  /** Joining components gives the '/'-separated path. */
  lemma RecJoinIsJoin(parts: seq<string>)
    requires Components(parts)
    ensures RecJoin(parts).0 == Strings.Join(parts, "/")
  {
    if |parts| >= 2 {
      assert parts[0][0] in parts[0];
      assert parts[0][|parts[0]| - 1] in parts[0];
      assert Components(parts[1..]) by {
        forall i | 0 <= i < |parts[1..]| ensures |parts[1..][i]| > 0 && '/' !in parts[1..][i] {
          assert parts[1..][i] == parts[i + 1];
        }
      }
      FoldJoin(parts[0], parts[1..]);
      assert [parts[0]] + parts[1..] == parts;
    }
  }

  /** Split and join are inverse on paths made of components. */
  lemma SplitJoinRoundTrip(parts: seq<string>)
    requires |parts| >= 1 && Components(parts)
    ensures RecSplit(Strings.Join(parts, "/")) == parts
    ensures RecJoin(RecSplit(Strings.Join(parts, "/"))).0 == Strings.Join(parts, "/")
  {
    RecSplitJoin(parts);
    RecJoinIsJoin(parts);
  }
}
