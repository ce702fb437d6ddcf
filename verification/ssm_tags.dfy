/**
 * `update_tags` of the parameter providers: when there were old tags, remove
 * the keys that the new tags no longer have, then add the current tags.
 */
module SsmTags {
  import opened Wrappers
  import opened Dicts
  import opened Values
  import opened Lifecycle
  import opened SsmStore

  /** Iterating a property that should be a list. */
  function Items(v: Value): (r: Result<seq<Value>, Error>)
    ensures r.Ok? <==> v.List?
    ensures r.Ok? ==> r.value == v.items
  {
    match v
    case List(items) => Ok(items)
    case _ => Err(TypeError("not a list"))
  }

  /** `tag['Key']` */
  function TagKey(tag: Value): (r: Result<Value, Error>)
    ensures r.Ok? <==> tag.Obj? && HasKey(tag.fields, "Key")
    ensures r.Ok? ==> Get(tag.fields, "Key") == Some(r.value)
    ensures tag.Obj? && r.Err? ==> r.error == KeyError("Key")
    ensures !tag.Obj? ==> r.Err? && r.error.TypeError?
  {
    match tag
    case Obj(d) => Require(d, "Key")
    case _ => Err(TypeError("indices must be integers"))
  }

  /** `[tag['Key'] for tag in tags]`, raising at the first tag without a key. */
  function TagKeys(tags: seq<Value>): (r: Result<seq<Value>, Error>)
    ensures r.Ok? <==> forall i :: 0 <= i < |tags| ==> TagKey(tags[i]).Ok?
    ensures r.Ok? ==> |r.value| == |tags| && forall i :: 0 <= i < |tags| ==> TagKey(tags[i]) == Ok(r.value[i])
    ensures r.Err? ==> exists i :: 0 <= i < |tags| && TagKey(tags[i]) == Err(r.error) &&
                                  forall j :: 0 <= j < i ==> TagKey(tags[j]).Ok?
  {
    if |tags| == 0 then Ok([])
    else
      match TagKey(tags[0])
      case Err(e) => Err(e)
      case Ok(k) =>
        match TagKeys(tags[1..])
        case Err(e) =>
          assert forall i :: 1 <= i < |tags| ==> tags[1..][i - 1] == tags[i];
          Err(e)
        case Ok(rest) => Ok([k] + rest)
  }

  /** Some tag of `tags` has key `k`. */
  predicate HasTagKey(tags: seq<Value>, k: Value) {
    exists i :: 0 <= i < |tags| && TagKey(tags[i]) == Ok(k)
  }

  lemma TagKeysCons(tags: seq<Value>, k: Value)
    requires |tags| > 0 && TagKey(tags[0]) == Ok(k)
    ensures forall k' :: HasTagKey(tags, k') <==> k' == k || HasTagKey(tags[1..], k')
  {
    forall k' | HasTagKey(tags, k') ensures k' == k || HasTagKey(tags[1..], k') {
      var i :| 0 <= i < |tags| && TagKey(tags[i]) == Ok(k');
      if i > 0 {
        assert TagKey(tags[1..][i - 1]) == Ok(k');
      }
    }
    forall k' | HasTagKey(tags[1..], k') ensures HasTagKey(tags, k') {
      var i :| 0 <= i < |tags[1..]| && TagKey(tags[1..][i]) == Ok(k');
      assert tags[1..][i] == tags[i + 1];
    }
  }

  /**
   * The keys of the old tags that are not among `keep`, in order; like the
   * loop that builds `to_delete`, it raises at the first old tag without a key.
   */
  function Dropped(prev: seq<Value>, keep: seq<Value>): (r: Result<seq<Value>, Error>)
    ensures r.Ok? <==> forall i :: 0 <= i < |prev| ==> TagKey(prev[i]).Ok?
    ensures r.Ok? ==> forall k :: k in r.value <==> k !in keep && HasTagKey(prev, k)
    ensures r.Err? ==> exists i :: 0 <= i < |prev| && TagKey(prev[i]) == Err(r.error)
  {
    if |prev| == 0 then Ok([])
    else
      match TagKey(prev[0])
      case Err(e) => Err(e)
      case Ok(k) =>
        assert forall i :: 1 <= i < |prev| ==> prev[1..][i - 1] == prev[i];
        match Dropped(prev[1..], keep)
        case Err(e) => Err(e)
        case Ok(rest) =>
          TagKeysCons(prev, k);
          if k in keep then Ok(rest) else Ok([k] + rest)
  }

  /**
   * `update_tags(new_tags, old_tags)` on the parameter `id`, where `current`
   * is the resource's own Tags property (`self.tags`), which the final add
   * sends whatever `new_tags` was.
   */
  function SyncSteps(id: string, newTags: Value, oldTags: Value, current: Value): (steps: seq<Step>)
    ensures |steps| > 0
    ensures steps[|steps| - 1] == Call(AddTagsCall(id, current)) || (|steps| == 1 && steps[0].Fail?)
    ensures forall i :: 0 <= i < |steps| - 1 ==> steps[i].Call? && steps[i].call.op == "remove_tags_from_resource"
  {
    match Items(oldTags)
    case Err(e) => [Fail(e)]
    case Ok(prev) =>
      if |prev| == 0 then [Call(AddTagsCall(id, current))]
      else
        match Items(newTags)
        case Err(e) => [Fail(e)]
        case Ok(next) =>
          match TagKeys(next)
          case Err(e) => [Fail(e)]
          case Ok(keep) =>
            match Dropped(prev, keep)
            case Err(e) => [Fail(e)]
            case Ok(ds) =>
              (if |ds| > 0 then [Call(RemoveTagsCall(id, ds))] else []) + [Call(AddTagsCall(id, current))]
  }

  /**
   * With well-formed tag lists, the removal request is sent exactly when
   * some old key is missing from the new tags, and it names exactly those
   * keys; the current tags are then added.
   */
  lemma SyncRemovesExactly(id: string, newTags: Value, oldTags: Value, current: Value)
    requires newTags.List? && oldTags.List? && |oldTags.items| > 0
    requires forall i :: 0 <= i < |newTags.items| ==> TagKey(newTags.items[i]).Ok?
    requires forall i :: 0 <= i < |oldTags.items| ==> TagKey(oldTags.items[i]).Ok?
    ensures var steps := SyncSteps(id, newTags, oldTags, current);
      exists ds: seq<Value> :: RemovesExactly(ds, oldTags, newTags) &&
        steps == (if |ds| > 0 then [Call(RemoveTagsCall(id, ds))] else []) + [Call(AddTagsCall(id, current))]
  {
    KeepIsNewKeys(newTags);
    var keep := TagKeys(newTags.items).value;
    StepsWithDropped(id, newTags, oldTags, current);
    var ds := Dropped(oldTags.items, keep).value;
    assert RemovesExactly(ds, oldTags, newTags);
  }

  /** `ds` holds exactly the old tags' keys that no new tag has. */
  ghost predicate RemovesExactly(ds: seq<Value>, oldTags: Value, newTags: Value)
    requires newTags.List? && oldTags.List?
  {
    forall k :: k in ds <==> OldKey(oldTags, k) && !NewKey(newTags, k)
  }

  lemma StepsWithDropped(id: string, newTags: Value, oldTags: Value, current: Value)
    requires newTags.List? && oldTags.List? && |oldTags.items| > 0
    requires TagKeys(newTags.items).Ok?
    requires forall i :: 0 <= i < |oldTags.items| ==> TagKey(oldTags.items[i]).Ok?
    ensures Dropped(oldTags.items, TagKeys(newTags.items).value).Ok?
    ensures var ds := Dropped(oldTags.items, TagKeys(newTags.items).value).value;
      SyncSteps(id, newTags, oldTags, current) ==
        (if |ds| > 0 then [Call(RemoveTagsCall(id, ds))] else []) + [Call(AddTagsCall(id, current))]
  {
  }

  /** The keys `update_tags` keeps are exactly the new tags' keys. */
  lemma KeepIsNewKeys(newTags: Value)
    requires newTags.List?
    requires forall i :: 0 <= i < |newTags.items| ==> TagKey(newTags.items[i]).Ok?
    ensures TagKeys(newTags.items).Ok?
    ensures forall k :: k in TagKeys(newTags.items).value <==> NewKey(newTags, k)
  {
    var keep := TagKeys(newTags.items).value;
    forall k ensures k in keep <==> NewKey(newTags, k) {
      if NewKey(newTags, k) {
        var i :| 0 <= i < |newTags.items| && TagKey(newTags.items[i]) == Ok(k);
        assert keep[i] == k;
      }
    }
  }

  predicate OldKey(oldTags: Value, k: Value)
    requires oldTags.List?
  {
    HasTagKey(oldTags.items, k)
  }

  predicate NewKey(newTags: Value, k: Value)
    requires newTags.List?
  {
    HasTagKey(newTags.items, k)
  }

  // ---------------------------------------------------------------- effect on the store

  lemma {:induction false} TagItemsKey(items: seq<Value>, d: Dict<string>, i: nat)
    requires TagItems(items) == Some(d) && i < |items|
    ensures TagKey(items[i]) == Ok(Str(d[i].0))
    decreases |items|
  {
    if i > 0 {
      TagItemsKey(items[1..], d[1..], i - 1);
    }
  }

  /** The tag requests name the parameter and carry their list under its own name. */
  lemma ResourceArgsGet(id: string, list: string, v: Value)
    requires list == "Tags" || list == "TagKeys"
    ensures var args := ResourceArgs(id, list, v);
      Get(args, "ResourceType") == Some(Str("Parameter")) && Get(args, "ResourceId") == Some(Str(id)) &&
      GetValue(args, list) == v && TagArgsValid(args, list)
  {
    var args := ResourceArgs(id, list, v);
    assert args[0].0 == "ResourceType" && args[1].0 == "ResourceId" && args[2].0 == list;
    GetHead(args, "ResourceId");
    GetHead(args[1..], "ResourceId");
    GetHead(args, list);
    GetHead(args[1..], list);
    GetHead(args[2..], list);
    assert HasKey(args, list);
    forall i | 0 <= i < |args| ensures args[i].0 in {"ResourceType", "ResourceId", list} {
    }
  }

  lemma ApplyRemove(p: Params, id: string, ds: seq<Value>, names: seq<string>)
    requires id in p && StrItems(ds) == Some(names)
    ensures Apply(p, RemoveTagsCall(id, ds)) == Ok(p[id := p[id].(tags := RemoveKeys(p[id].tags, names))])
  {
    var call := RemoveTagsCall(id, ds);
    ResourceArgsGet(id, "TagKeys", List(ds));
    assert Apply(p, call) == RemoveTags(p, call.args);
  }

  lemma ApplyAdd(p: Params, id: string, tags: Value, d: Dict<string>)
    requires id in p && TagList(tags) == Some(d)
    ensures Apply(p, AddTagsCall(id, tags)) == Ok(p[id := p[id].(tags := Update(p[id].tags, d))])
  {
    var call := AddTagsCall(id, tags);
    ResourceArgsGet(id, "Tags", tags);
    assert Apply(p, call) == AddTags(p, call.args);
  }

  /**
   * The steps succeeded and left the store as it was except that parameter
   * `id` now has exactly the tags `expected`: the same value for every key.
   */
  ghost predicate TaggedExactly(p: Params, d: Done, id: string, expected: Dict<string>) {
    d.error.None? &&
    exists tags :: Retagged(p, d.after, id, tags) && forall k :: Get(tags, k) == Get(expected, k)
  }

  /** The parameter `id` with its tags replaced and nothing else changed. */
  predicate Retagged(p: Params, q: Params, id: string, tags: Dict<string>) {
    id in p && q == p[id := p[id].(tags := tags)]
  }

  /**
   * When the old tags list every tag the parameter has and the new tags are
   * well-formed with distinct keys, the sync succeeds and leaves the
   * parameter tagged with exactly the new tags; nothing else in the store
   * changes.
   */
  lemma SyncLeavesNewTags(p: Params, id: string, oldTags: Value, newTags: Value)
    requires id in p
    requires TagList(oldTags).Some? && |oldTags.items| > 0
    requires forall k :: HasKey(p[id].tags, k) ==> HasKey(TagList(oldTags).value, k)
    requires TagList(newTags).Some? && UniqueKeys(TagList(newTags).value)
    ensures TaggedExactly(p, Exec(p, SyncSteps(id, newTags, oldTags, newTags)), id, TagList(newTags).value)
  {
    var ds := DroppedKeys(oldTags, newTags);
    ShapeLeavesNewTags(p, id, TagList(oldTags).value, newTags, ds);
    StepsAsShape(p, id, oldTags, newTags, Exec(p, SyncShape(id, ds, newTags)));
  }

  lemma ShapeLeavesNewTags(p: Params, id: string, od: Dict<string>, newTags: Value, ds: seq<Value>)
    requires id in p
    requires forall k :: HasKey(p[id].tags, k) ==> HasKey(od, k)
    requires TagList(newTags).Some? && UniqueKeys(TagList(newTags).value)
    requires forall j :: 0 <= j < |ds| ==> ds[j].Str?
    requires forall k :: HasKey(od, k) && !HasKey(TagList(newTags).value, k) ==> Str(k) in ds
    ensures TaggedExactly(p, Exec(p, SyncShape(id, ds, newTags)), id, TagList(newTags).value)
  {
    var nd := TagList(newTags).value;
    var names := AllStrs(ds);
    var t := p[id].tags;
    var cleaned := if |ds| > 0 then RemoveKeys(t, names) else t;
    if |ds| > 0 {
      ExecRemoveAdd(p, id, newTags, ds, names, nd);
    } else {
      ExecAddOnly(p, id, newTags, ds, nd);
    }
    assert Retagged(p, Exec(p, SyncShape(id, ds, newTags)).after, id, Update(cleaned, nd));
    forall k | HasKey(t, k) && !HasKey(nd, k) ensures |ds| > 0 && k in names {
      InNames(ds, k);
    }
    CleanedThenAdded(t, |ds| > 0, names, nd);
  }

  /**
   * The keys `to_delete` collects for well-formed tag lists: every key of an
   * old tag that no new tag has.
   */
  function DroppedKeys(oldTags: Value, newTags: Value): (ds: seq<Value>)
    requires TagList(oldTags).Some? && TagList(newTags).Some?
    ensures Items(oldTags).Ok? && Items(newTags).Ok?
    ensures TagKeys(newTags.items).Ok? && Dropped(oldTags.items, TagKeys(newTags.items).value) == Ok(ds)
    ensures forall j :: 0 <= j < |ds| ==> ds[j].Str?
    ensures forall k :: HasKey(TagList(oldTags).value, k) && !HasKey(TagList(newTags).value, k) ==> Str(k) in ds
  {
    TagListKeys(oldTags);
    TagListKeys(newTags);
    var ds := Dropped(oldTags.items, TagKeys(newTags.items).value).value;
    DroppedKeysFacts(oldTags, newTags, ds);
    ds
  }

  lemma TagListKeys(tags: Value)
    requires TagList(tags).Some?
    ensures tags.List? && |tags.items| == |TagList(tags).value|
    ensures forall i :: 0 <= i < |tags.items| ==> TagKey(tags.items[i]) == Ok(Str(TagList(tags).value[i].0))
  {
    var d := TagList(tags).value;
    forall i | 0 <= i < |tags.items| ensures TagKey(tags.items[i]) == Ok(Str(d[i].0)) {
      TagItemsKey(tags.items, d, i);
    }
  }

  lemma DroppedKeysFacts(oldTags: Value, newTags: Value, ds: seq<Value>)
    requires TagList(oldTags).Some? && TagList(newTags).Some?
    requires forall i :: 0 <= i < |oldTags.items| ==> TagKey(oldTags.items[i]) == Ok(Str(TagList(oldTags).value[i].0))
    requires TagKeys(newTags.items).Ok? && Dropped(oldTags.items, TagKeys(newTags.items).value) == Ok(ds)
    ensures forall j :: 0 <= j < |ds| ==> ds[j].Str?
    ensures forall k :: HasKey(TagList(oldTags).value, k) && !HasKey(TagList(newTags).value, k) ==> Str(k) in ds
  {
    var od, nd := TagList(oldTags).value, TagList(newTags).value;
    TagListKeys(newTags);
    forall j | 0 <= j < |ds| ensures ds[j].Str? {
      assert ds[j] in ds;
    }
    forall k | HasKey(od, k) && !HasKey(nd, k) ensures Str(k) in ds {
      var i :| 0 <= i < |od| && od[i].0 == k;
      assert TagKey(oldTags.items[i]) == Ok(Str(k));
    }
  }

  lemma ExecAdd(p: Params, id: string, newTags: Value, nd: Dict<string>)
    requires id in p && TagList(newTags) == Some(nd)
    ensures Exec(p, [Call(AddTagsCall(id, newTags))]) == Done(None, p[id := p[id].(tags := Update(p[id].tags, nd))])
  {
    ApplyAdd(p, id, newTags, nd);
    ExecOne(p, AddTagsCall(id, newTags));
  }

  lemma ExecAddOnly(p: Params, id: string, newTags: Value, ds: seq<Value>, nd: Dict<string>)
    requires id in p && TagList(newTags) == Some(nd) && |ds| == 0
    ensures Exec(p, SyncShape(id, ds, newTags)) == Done(None, p[id := p[id].(tags := Update(p[id].tags, nd))])
  {
    ExecAdd(p, id, newTags, nd);
    ShapeOne(p, id, newTags, ds, Done(None, p[id := p[id].(tags := Update(p[id].tags, nd))]));
  }

  lemma ExecRemoveAdd(p: Params, id: string, newTags: Value, ds: seq<Value>, names: seq<string>, nd: Dict<string>)
    requires id in p && StrItems(ds) == Some(names) && TagList(newTags) == Some(nd) && |ds| > 0
    ensures Exec(p, SyncShape(id, ds, newTags)) ==
      Done(None, p[id := p[id].(tags := Update(RemoveKeys(p[id].tags, names), nd))])
  {
    ExecRemoveThenAdd(p, id, newTags, ds, names, nd);
    ShapeTwo(p, id, newTags, ds, Done(None, p[id := p[id].(tags := Update(RemoveKeys(p[id].tags, names), nd))]));
  }

  lemma ExecRemoveThenAdd(p: Params, id: string, newTags: Value, ds: seq<Value>, names: seq<string>, nd: Dict<string>)
    requires id in p && StrItems(ds) == Some(names) && TagList(newTags) == Some(nd)
    ensures Exec(p, [Call(RemoveTagsCall(id, ds)), Call(AddTagsCall(id, newTags))]) ==
      Done(None, p[id := p[id].(tags := Update(RemoveKeys(p[id].tags, names), nd))])
  {
    var q := p[id := p[id].(tags := RemoveKeys(p[id].tags, names))];
    ApplyRemove(p, id, ds, names);
    ExecTwo(p, RemoveTagsCall(id, ds), AddTagsCall(id, newTags));
    ExecAdd(q, id, newTags, nd);
    RetagTwice(p, id, RemoveKeys(p[id].tags, names), Update(RemoveKeys(p[id].tags, names), nd));
  }

  lemma RetagTwice(p: Params, id: string, t1: Dict<string>, t2: Dict<string>)
    requires id in p
    ensures var q := p[id := p[id].(tags := t1)];
      q[id := q[id].(tags := t2)] == p[id := p[id].(tags := t2)]
  {
  }

  lemma ShapeOne(p: Params, id: string, newTags: Value, ds: seq<Value>, x: Done)
    requires |ds| == 0
    requires Exec(p, [Call(AddTagsCall(id, newTags))]) == x
    ensures Exec(p, SyncShape(id, ds, newTags)) == x
  {
    assert SyncShape(id, ds, newTags) == [Call(AddTagsCall(id, newTags))];
  }

  lemma ShapeTwo(p: Params, id: string, newTags: Value, ds: seq<Value>, x: Done)
    requires |ds| > 0
    requires Exec(p, [Call(RemoveTagsCall(id, ds)), Call(AddTagsCall(id, newTags))]) == x
    ensures Exec(p, SyncShape(id, ds, newTags)) == x
  {
    assert SyncShape(id, ds, newTags) == [Call(RemoveTagsCall(id, ds)), Call(AddTagsCall(id, newTags))];
  }

  /** The requests `update_tags` sends once the keys to remove are known. */
  function SyncShape(id: string, ds: seq<Value>, current: Value): seq<Step> {
    (if |ds| > 0 then [Call(RemoveTagsCall(id, ds))] else []) + [Call(AddTagsCall(id, current))]
  }

  lemma ExecOne(p: Params, a: ApiCall)
    ensures Apply(p, a).Ok? ==> Exec(p, [Call(a)]) == Done(None, Apply(p, a).value)
    ensures Apply(p, a).Err? ==> Exec(p, [Call(a)]) == Done(Some(Api(Apply(p, a).error)), p)
  {
    assert [Call(a)][1..] == [];
  }

  lemma ExecTwo(p: Params, a: ApiCall, b: ApiCall)
    requires Apply(p, a).Ok?
    ensures Exec(p, [Call(a), Call(b)]) == Exec(Apply(p, a).value, [Call(b)])
  {
    assert [Call(a), Call(b)][1..] == [Call(b)];
  }

  lemma StepsAsShape(p: Params, id: string, oldTags: Value, newTags: Value, x: Done)
    requires TagList(oldTags).Some? && TagList(newTags).Some? && |oldTags.items| > 0
    requires Exec(p, SyncShape(id, DroppedKeys(oldTags, newTags), newTags)) == x
    ensures Exec(p, SyncSteps(id, newTags, oldTags, newTags)) == x
  {
    SyncStepsShape(id, oldTags, newTags, newTags);
  }

  lemma SyncStepsShape(id: string, oldTags: Value, newTags: Value, current: Value)
    requires TagList(oldTags).Some? && TagList(newTags).Some? && |oldTags.items| > 0
    ensures SyncSteps(id, newTags, oldTags, current) == SyncShape(id, DroppedKeys(oldTags, newTags), current)
  {
    var ds := DroppedKeys(oldTags, newTags);
  }

  lemma CleanedThenAdded(t: Dict<string>, removed: bool, names: seq<string>, nd: Dict<string>)
    requires UniqueKeys(nd)
    requires forall k :: HasKey(t, k) && !HasKey(nd, k) ==> removed && k in names
    ensures forall k :: Get(Update(if removed then RemoveKeys(t, names) else t, nd), k) == Get(nd, k)
  {
    var cleaned := if removed then RemoveKeys(t, names) else t;
    forall k ensures Get(Update(cleaned, nd), k) == Get(nd, k) {
      UpdateGet(cleaned, nd, k);
      if removed {
        RemoveKeysGet(t, names, k);
      }
    }
  }

  lemma InNames(ds: seq<Value>, k: string)
    requires forall j :: 0 <= j < |ds| ==> ds[j].Str?
    requires Str(k) in ds
    ensures k in AllStrs(ds)
  {
    var names := AllStrs(ds);
    var j :| 0 <= j < |ds| && ds[j] == Str(k);
    assert names[j] == k;
  }

  /** The strings of a list whose elements are all strings. */
  function AllStrs(vs: seq<Value>): (r: seq<string>)
    requires forall j :: 0 <= j < |vs| ==> vs[j].Str?
    ensures StrItems(vs) == Some(r)
    ensures |r| == |vs| && forall j :: 0 <= j < |vs| ==> vs[j] == Str(r[j])
  {
    if |vs| == 0 then [] else [vs[0].s] + AllStrs(vs[1..])
  }
}
