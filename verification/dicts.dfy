/**
 * Python dictionaries with string keys, as insertion-ordered association
 * lists. Lookup finds the first entry with the key; assignment replaces that
 * entry in place or appends a new one, which is how `d[k] = v` keeps order.
 */
module Dicts {
  import opened Wrappers

  type Dict<V> = seq<(string, V)>

  function Keys<V>(d: Dict<V>): (ks: seq<string>)
    ensures |ks| == |d|
    ensures forall i :: 0 <= i < |d| ==> ks[i] == d[i].0
  {
    seq(|d|, i requires 0 <= i < |d| => d[i].0)
  }

  predicate HasKey<V>(d: Dict<V>, k: string) {
    exists i :: 0 <= i < |d| && d[i].0 == k
  }

  predicate UniqueKeys<V>(d: Dict<V>) {
    forall i, j :: 0 <= i < j < |d| ==> d[i].0 != d[j].0
  }

  lemma HasKeyCons<V>(d: Dict<V>, k: string)
    requires |d| > 0
    ensures HasKey(d, k) <==> d[0].0 == k || HasKey(d[1..], k)
  {
    if HasKey(d, k) && d[0].0 != k {
      var i :| 0 <= i < |d| && d[i].0 == k;
      assert d[1..][i - 1].0 == k;
    }
    if HasKey(d[1..], k) {
      var i :| 0 <= i < |d[1..]| && d[1..][i].0 == k;
      assert d[i + 1].0 == k;
    }
  }

  /** `d.get(k)`: the value of the first entry with key `k`. */
  function Get<V>(d: Dict<V>, k: string): (r: Option<V>)
    ensures r.Some? <==> HasKey(d, k)
    ensures r.Some? ==> (k, r.value) in d
  {
    if |d| == 0 then None
    else
      HasKeyCons(d, k);
      if d[0].0 == k then Some(d[0].1)
      else Get(d[1..], k)
  }

  /** One step of lookup: the head entry, or the rest. */
  lemma GetHead<V>(d: Dict<V>, k: string)
    requires |d| > 0
    ensures Get(d, k) == if d[0].0 == k then Some(d[0].1) else Get(d[1..], k)
  {
  }

  /** `d.get(k, default)` */
  function GetOr<V>(d: Dict<V>, k: string, default: V): (r: V)
    ensures HasKey(d, k) ==> Some(r) == Get(d, k)
    ensures !HasKey(d, k) ==> r == default
  {
    Get(d, k).GetOr(default)
  }

  /** With unique keys, `Get` finds the one entry for the key. */
  lemma {:induction false} GetUnique<V>(d: Dict<V>, i: nat)
    requires UniqueKeys(d) && i < |d|
    ensures Get(d, d[i].0) == Some(d[i].1)
    decreases |d|
  {
    if i > 0 {
      GetUnique(d[1..], i - 1);
    }
  }

  /** `d[k] = v` */
  function Put<V>(d: Dict<V>, k: string, v: V): (r: Dict<V>)
    ensures |r| == if HasKey(d, k) then |d| else |d| + 1
  {
    if |d| == 0 then [(k, v)]
    else
      HasKeyCons(d, k);
      if d[0].0 == k then [(k, v)] + d[1..]
      else [d[0]] + Put(d[1..], k, v)
  }

  /** After `d[k] = v`, `k` maps to `v` and every other key is untouched. */
  lemma {:induction false} PutGet<V>(d: Dict<V>, k: string, v: V, k': string)
    ensures Get(Put(d, k, v), k') == if k' == k then Some(v) else Get(d, k')
    decreases |d|
  {
    if |d| > 0 && d[0].0 != k {
      PutGet(d[1..], k, v, k');
    }
  }

  /** `d[k] = v` keeps the key order, appending `k` only when it is new. */
  lemma {:induction false} PutKeys<V>(d: Dict<V>, k: string, v: V)
    ensures HasKey(d, k) ==> Keys(Put(d, k, v)) == Keys(d)
    ensures !HasKey(d, k) ==> Put(d, k, v) == d + [(k, v)]
    decreases |d|
  {
    if |d| > 0 {
      HasKeyCons(d, k);
      if d[0].0 != k {
        PutKeys(d[1..], k, v);
        assert d == [d[0]] + d[1..];
      }
    }
  }

  lemma {:induction false} PutUnique<V>(d: Dict<V>, k: string, v: V)
    requires UniqueKeys(d)
    ensures UniqueKeys(Put(d, k, v))
    ensures forall k' :: HasKey(Put(d, k, v), k') <==> k' == k || HasKey(d, k')
    decreases |d|
  {
    if |d| > 0 {
      HasKeyCons(d, k);
      var r := Put(d, k, v);
      forall k' ensures HasKey(d, k') <==> d[0].0 == k' || HasKey(d[1..], k') {
        HasKeyCons(d, k');
      }
      forall k' ensures HasKey(r, k') <==> r[0].0 == k' || HasKey(r[1..], k') {
        HasKeyCons(r, k');
      }
      if d[0].0 != k {
        PutUnique(d[1..], k, v);
        assert !HasKey(d[1..], d[0].0);
        assert r[1..] == Put(d[1..], k, v);
      } else {
        assert r[1..] == d[1..];
      }
    } else {
      var r := Put(d, k, v);
      assert r == [(k, v)];
      forall k' ensures HasKey(r, k') <==> k' == k {
        assert r[0].0 == k;
      }
    }
  }

  /** `d.pop(k, None)`: every entry with key `k` is removed. */
  function Remove<V>(d: Dict<V>, k: string): (r: Dict<V>)
    ensures |r| <= |d|
    ensures !HasKey(r, k)
    ensures !HasKey(d, k) ==> r == d
  {
    if |d| == 0 then []
    else
      HasKeyCons(d, k);
      var tail := Remove(d[1..], k);
      if d[0].0 == k then tail
      else
        HasKeyCons([d[0]] + tail, k);
        assert ([d[0]] + tail)[1..] == tail;
        assert !HasKey(d, k) ==> d == [d[0]] + d[1..];
        [d[0]] + tail
  }

  /** Popping `k` leaves every other key's value as it was. */
  lemma {:induction false} RemoveGet<V>(d: Dict<V>, k: string, k': string)
    requires k' != k
    ensures Get(Remove(d, k), k') == Get(d, k')
    decreases |d|
  {
    if |d| > 0 {
      RemoveGet(d[1..], k, k');
    }
  }

  lemma {:induction false} RemoveUnique<V>(d: Dict<V>, k: string)
    requires UniqueKeys(d)
    ensures UniqueKeys(Remove(d, k))
    ensures forall k' :: HasKey(Remove(d, k), k') <==> k' != k && HasKey(d, k')
    decreases |d|
  {
    if |d| > 0 {
      RemoveUnique(d[1..], k);
      var tail := Remove(d[1..], k);
      forall k' ensures HasKey(d, k') <==> d[0].0 == k' || HasKey(d[1..], k') {
        HasKeyCons(d, k');
      }
      if d[0].0 != k {
        var r := [d[0]] + tail;
        forall k' ensures HasKey(r, k') <==> d[0].0 == k' || HasKey(tail, k') {
          HasKeyCons(r, k');
          assert r[1..] == tail;
        }
        assert !HasKey(d[1..], d[0].0);
      }
    }
  }

  /** `d.update(e)`: the entries of `e` assigned in order. */
  function Update<V>(d: Dict<V>, e: Dict<V>): Dict<V>
    decreases |e|
  {
    if |e| == 0 then d
    else Update(Put(d, e[0].0, e[0].1), e[1..])
  }

  /**
   * After `d.update(e)` a key of `e` has its value from `e` (its last entry,
   * which for unique keys is its only one) and any other key keeps its value
   * from `d`.
   */
  lemma {:induction false} UpdateGet<V>(d: Dict<V>, e: Dict<V>, k: string)
    requires UniqueKeys(e)
    ensures Get(Update(d, e), k) == if HasKey(e, k) then Get(e, k) else Get(d, k)
    decreases |e|
  {
    if |e| > 0 {
      HasKeyCons(e, k);
      UpdateGet(Put(d, e[0].0, e[0].1), e[1..], k);
      PutGet(d, e[0].0, e[0].1, k);
      if e[0].0 == k {
        assert !HasKey(e[1..], k);
      }
    }
  }

  lemma {:induction false} UpdateUnique<V>(d: Dict<V>, e: Dict<V>)
    requires UniqueKeys(d)
    ensures UniqueKeys(Update(d, e))
    ensures forall k :: HasKey(Update(d, e), k) <==> HasKey(d, k) || HasKey(e, k)
    decreases |e|
  {
    if |e| > 0 {
      PutUnique(d, e[0].0, e[0].1);
      UpdateUnique(Put(d, e[0].0, e[0].1), e[1..]);
      forall k ensures HasKey(e, k) <==> e[0].0 == k || HasKey(e[1..], k) {
        HasKeyCons(e, k);
      }
    }
  }

  /** `{k: v for k, v in d.items() if keep(v)}` */
  function Filter<V>(d: Dict<V>, keep: V -> bool): (r: Dict<V>)
    ensures |r| <= |d|
    ensures forall i :: 0 <= i < |r| ==> keep(r[i].1) && r[i] in d
  {
    if |d| == 0 then []
    else if keep(d[0].1) then [d[0]] + Filter(d[1..], keep)
    else Filter(d[1..], keep)
  }

  /** Every entry of `d` that `keep` accepts survives, in order. */
  lemma {:induction false} FilterKeeps<V>(d: Dict<V>, keep: V -> bool, i: nat)
    requires i < |d| && keep(d[i].1)
    ensures d[i] in Filter(d, keep)
    decreases |d|
  {
    if i > 0 {
      FilterKeeps(d[1..], keep, i - 1);
    }
  }

  /** A key survives filtering exactly when some entry with it is kept. */
  lemma {:induction false} FilterHasKey<V>(d: Dict<V>, keep: V -> bool, k: string)
    ensures HasKey(Filter(d, keep), k) <==> exists i :: 0 <= i < |d| && d[i].0 == k && keep(d[i].1)
    decreases |d|
  {
    if |d| > 0 {
      FilterHasKey(d[1..], keep, k);
      var r := Filter(d[1..], keep);
      if keep(d[0].1) {
        HasKeyCons([d[0]] + r, k);
        assert ([d[0]] + r)[1..] == r;
      }
      if exists i :: 0 <= i < |d| && d[i].0 == k && keep(d[i].1) {
        var i :| 0 <= i < |d| && d[i].0 == k && keep(d[i].1);
        if i > 0 {
          assert d[1..][i - 1] == d[i];
        }
      }
      if exists i :: 0 <= i < |d| - 1 && d[1..][i].0 == k && keep(d[1..][i].1) {
        var i :| 0 <= i < |d| - 1 && d[1..][i].0 == k && keep(d[1..][i].1);
        assert d[i + 1] == d[1..][i];
      }
    }
  }

  /** `[f(k, v) for k, v in d.items()]` */
  function MapItems<V, U>(d: Dict<V>, f: (string, V) -> U): (r: seq<U>)
    ensures |r| == |d|
    ensures forall i :: 0 <= i < |d| ==> r[i] == f(d[i].0, d[i].1)
  {
    seq(|d|, i requires 0 <= i < |d| => f(d[i].0, d[i].1))
  }

  /** Position of the first entry with key `k`. */
  function IndexOfKey<V>(d: Dict<V>, k: string): (i: nat)
    requires HasKey(d, k)
    ensures i < |d| && d[i].0 == k
    ensures forall j :: 0 <= j < i ==> d[j].0 != k
  {
    HasKeyCons(d, k);
    if d[0].0 == k then 0 else 1 + IndexOfKey(d[1..], k)
  }

  /** Assigning an existing key overwrites its first entry in place. */
  lemma {:induction false} PutAt<V>(d: Dict<V>, k: string, v: V)
    requires HasKey(d, k)
    ensures Put(d, k, v) == d[IndexOfKey(d, k) := (k, v)]
    decreases |d|
  {
    HasKeyCons(d, k);
    if d[0].0 != k {
      PutAt(d[1..], k, v);
    }
  }

  /** Updating with entries whose keys are all new appends them in order. */
  lemma {:induction false} UpdateFresh<V>(d: Dict<V>, e: Dict<V>)
    requires UniqueKeys(e)
    requires forall k :: HasKey(e, k) ==> !HasKey(d, k)
    ensures Update(d, e) == d + e
    decreases |e|
  {
    if |e| > 0 {
      PutKeys(d, e[0].0, e[0].1);
      assert HasKey(e, e[0].0);
      var d' := d + [e[0]];
      forall k | HasKey(e[1..], k)
        ensures !HasKey(d', k)
      {
        HasKeyCons(e, k);
        assert k != e[0].0 && !HasKey(d, k);
        assert forall i :: 0 <= i < |d| ==> d'[i] == d[i];
      }
      UpdateFresh(d', e[1..]);
      assert d' + e[1..] == d + e;
    }
  }

  /** Joining two dictionaries with unique, disjoint keys keeps keys unique. */
  lemma UniqueConcat<V>(a: Dict<V>, b: Dict<V>)
    requires UniqueKeys(a) && UniqueKeys(b)
    requires forall i, j :: 0 <= i < |a| && 0 <= j < |b| ==> a[i].0 != b[j].0
    ensures UniqueKeys(a + b)
  {
    var c := a + b;
    forall i, j | 0 <= i < j < |c|
      ensures c[i].0 != c[j].0
    {
      if j >= |a| && i < |a| {
        assert c[j] == b[j - |a|];
      }
    }
  }

  /** Lookup in joined dictionaries: the first one wins. */
  lemma {:induction false} GetAppend<V>(a: Dict<V>, b: Dict<V>, k: string)
    ensures Get(a + b, k) == if HasKey(a, k) then Get(a, k) else Get(b, k)
    decreases |a|
  {
    if |a| == 0 {
      assert a + b == b;
    } else {
      HasKeyCons(a, k);
      assert (a + b)[1..] == a[1..] + b;
      GetAppend(a[1..], b, k);
      GetHead(a + b, k);
    }
  }

  lemma HasKeyAppend<V>(a: Dict<V>, b: Dict<V>, k: string)
    ensures HasKey(a + b, k) <==> HasKey(a, k) || HasKey(b, k)
  {
    if HasKey(a + b, k) {
      var i :| 0 <= i < |a + b| && (a + b)[i].0 == k;
      if i >= |a| {
        assert b[i - |a|].0 == k;
      }
    }
    if HasKey(b, k) {
      var j :| 0 <= j < |b| && b[j].0 == k;
      assert (a + b)[|a| + j].0 == k;
    }
    if HasKey(a, k) {
      var j :| 0 <= j < |a| && a[j].0 == k;
      assert (a + b)[j].0 == k;
    }
  }

  /** With unique keys, a filtered dictionary keeps exactly the accepted entries' lookups. */
  lemma {:induction false} FilterGet<V>(d: Dict<V>, keep: V -> bool, k: string)
    requires UniqueKeys(d)
    ensures Get(Filter(d, keep), k) == if Get(d, k).Some? && keep(Get(d, k).value) then Get(d, k) else None
    decreases |d|
  {
    if |d| > 0 {
      assert UniqueKeys(d[1..]);
      FilterGet(d[1..], keep, k);
      var r := Filter(d[1..], keep);
      if d[0].0 == k {
        assert !HasKey(d[1..], k) by {
          forall j | 0 <= j < |d[1..]|
            ensures d[1..][j].0 != k
          {
            assert d[1..][j] == d[j + 1];
          }
        }
      }
      if keep(d[0].1) {
        GetHead([d[0]] + r, k);
        assert ([d[0]] + r)[1..] == r;
      }
    }
  }

  /** The entries of `d` under the listed keys, in the keys' order: `{k: d[k] for k in keys if k in d}`. */
  function Pick<V>(d: Dict<V>, keys: seq<string>): (r: Dict<V>)
    ensures |r| <= |keys|
  {
    if |keys| == 0 then []
    else
      match Get(d, keys[0])
      case Some(v) => [(keys[0], v)] + Pick(d, keys[1..])
      case None => Pick(d, keys[1..])
  }

  /**
   * With distinct keys listed, the picked dictionary has unique keys and
   * holds `d`'s value for exactly the listed keys `d` has.
   */
  lemma {:induction false} PickGet<V>(d: Dict<V>, keys: seq<string>)
    requires forall i, j :: 0 <= i < j < |keys| ==> keys[i] != keys[j]
    ensures UniqueKeys(Pick(d, keys))
    ensures forall k :: Get(Pick(d, keys), k) == if k in keys then Get(d, k) else None
    decreases |keys|
  {
    if |keys| > 0 {
      var rest := keys[1..];
      assert forall i, j :: 0 <= i < j < |rest| ==> rest[i] != rest[j] by {
        forall i, j | 0 <= i < j < |rest| ensures rest[i] != rest[j] {
          assert rest[i] == keys[i + 1] && rest[j] == keys[j + 1];
        }
      }
      PickGet(d, rest);
      assert keys[0] !in rest by {
        forall i | 0 <= i < |rest| ensures rest[i] != keys[0] {
          assert rest[i] == keys[i + 1];
        }
      }
      var tail := Pick(d, rest);
      assert !HasKey(tail, keys[0]);
      forall k ensures k in keys <==> k == keys[0] || k in rest {
        assert keys == [keys[0]] + rest;
      }
      match Get(d, keys[0])
      case Some(v) =>
        var r := [(keys[0], v)] + tail;
        forall k ensures Get(r, k) == if k == keys[0] then Some(v) else Get(tail, k) {
          GetHead(r, k);
          assert r[1..] == tail;
        }
        forall i, j | 0 <= i < j < |r| ensures r[i].0 != r[j].0 {
          if i == 0 {
            assert r[j] == tail[j - 1];
          } else {
            assert r[i] == tail[i - 1] && r[j] == tail[j - 1];
          }
        }
      case None =>
    }
  }
}
