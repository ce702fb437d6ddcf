/**
 * The flat-layout SSM Parameter provider: Name is required, the attribute
 * switches are read by truthiness, there is no Arn attribute, and `update`
 * puts the parameter on every call that is not refused.
 */
module SsmParameterFlat {
  import opened Wrappers
  import opened Dicts
  import opened Values
  import opened Lifecycle
  import opened SsmStore
  import SsmTags
  import Random
  import P = SsmParameter
  import Old = SsmParameterOld

  type Config = Old.Config
  type Digest = Old.Digest

  /**
   * `validate`: Name is read with `props['Name']`; ReturnValue and
   * ReturnValueHash are the raw property values taken as truth values.
   */
  function Validate(props: Props, draw: Random.Draw): (r: Result<Config, Error>)
    ensures !HasKey(props, "Name") ==> r == Err(KeyError("Name"))
    ensures r.Ok? <==>
      GetValue(props, "Name").Str? &&
      (HasKey(props, "RandomValue") ==> P.GenerateRandom(GetValue(props, "RandomValue"), draw).Ok?)
    ensures r.Ok? ==> Get(props, "Name") == Some(Str(r.value.base.name))
    ensures r.Ok? ==> (r.value.base.random <==> HasKey(props, "RandomValue"))
    ensures r.Ok? && HasKey(props, "RandomValue") ==>
      r.value.base.value == Str(P.GenerateRandom(GetValue(props, "RandomValue"), draw).value)
    ensures r.Ok? && !HasKey(props, "RandomValue") ==> r.value.base.value == GetOr(props, "Value", Str(""))
    ensures r.Ok? ==> (r.value.returnValue <==> HasKey(props, "ReturnValue") && Truthy(GetValue(props, "ReturnValue")))
    ensures r.Ok? ==> (r.value.returnValueHash <==> HasKey(props, "ReturnValueHash") && Truthy(GetValue(props, "ReturnValueHash")))
  {
    var nameV :- Require(props, "Name");
    if !nameV.Str? then Err(TypeError("Name"))
    else
      var generated :- if HasKey(props, "RandomValue") then P.GenerateRandom(GetValue(props, "RandomValue"), draw)
                       else Ok("");
      var value := if HasKey(props, "RandomValue") then Str(generated) else GetOr(props, "Value", Str(""));
      Ok(Old.Config(P.Config(nameV.s, GetOr(props, "Description", Str("")), GetOr(props, "Type", Str("String")),
                             value, HasKey(props, "RandomValue"), Str("none"), GetValue(props, "KeyId"),
                             GetOr(props, "Tags", List([]))),
                    Truthy(GetOr(props, "ReturnValue", Bool(false))),
                    Truthy(GetOr(props, "ReturnValueHash", Bool(false)))))
  }

  /**
   * CloudFormation passes a template's `ReturnValue: false` as the string
   * "false", which is truthy: the value is returned all the same.
   */
  lemma FalseStringReturnsValue(props: Props, draw: Random.Draw)
    requires Get(props, "ReturnValue") == Some(Str("false"))
    requires Validate(props, draw).Ok?
    ensures Validate(props, draw).value.returnValue
  {
  }

  // ---------------------------------------------------------------- attributes

  /**
   * The ValueHash as the code computes it: the MD5 of the value when the
   * value is random and the current time otherwise, the reverse of what
   * the comments in each branch describe.
   */
  function HashAsWritten(cfg: Config, clock: string, md5: Digest): (r: Result<string, Error>)
    ensures !cfg.base.random ==> r == Ok(clock)
    ensures cfg.base.random ==> (r.Ok? <==> cfg.base.value.Str?)
    ensures cfg.base.random && r.Ok? ==> r.value == md5(cfg.base.value.s)
  {
    if !cfg.base.random then Ok(clock)
    else if cfg.base.value.Str? then Ok(md5(cfg.base.value.s))
    else Err(AttributeError("encode"))
  }

  /** `attributes` given the hash: Value when switched on, ValueHash when switched on, nothing else. */
  function AttributesWith(cfg: Config, hash: Result<string, Error>): (r: Result<Props, Error>)
    ensures r.Ok? <==> (cfg.returnValueHash ==> hash.Ok?)
    ensures r.Err? ==> r == Err(hash.error)
  {
    var withValue := if cfg.returnValue then Put([], "Value", cfg.base.value) else [];
    if !cfg.returnValueHash then Ok(withValue)
    else
      match hash
      case Err(e) => Err(e)
      case Ok(h) => Ok(Put(withValue, "ValueHash", Str(h)))
  }

  /** What the attributes hold: exactly the switched-on entries, with the given hash. */
  lemma AttributesWithContents(cfg: Config, hash: Result<string, Error>)
    requires AttributesWith(cfg, hash).Ok?
    ensures var a := AttributesWith(cfg, hash).value;
      !HasKey(a, "Arn") &&
      (HasKey(a, "Value") <==> cfg.returnValue) &&
      (cfg.returnValue ==> Get(a, "Value") == Some(cfg.base.value)) &&
      (HasKey(a, "ValueHash") <==> cfg.returnValueHash) &&
      (cfg.returnValueHash ==> Get(a, "ValueHash") == Some(Str(hash.value)))
  {
    var withValue := if cfg.returnValue then Put([], "Value", cfg.base.value) else [];
    var e: Props := [];
    PutGet(e, "Value", cfg.base.value, "Arn");
    PutGet(e, "Value", cfg.base.value, "Value");
    PutGet(e, "Value", cfg.base.value, "ValueHash");
    if cfg.returnValueHash {
      PutGet(withValue, "ValueHash", Str(hash.value), "Arn");
      PutGet(withValue, "ValueHash", Str(hash.value), "Value");
      PutGet(withValue, "ValueHash", Str(hash.value), "ValueHash");
    }
  }

  function AttributesAsWritten(cfg: Config, clock: string, md5: Digest): Result<Props, Error> {
    AttributesWith(cfg, HashAsWritten(cfg, clock, md5))
  }

  /** The attributes with the hash the comments describe: the older provider's. */
  function Attributes(cfg: Config, clock: string, md5: Digest): Result<Props, Error> {
    AttributesWith(cfg, Old.ValueHash(cfg, clock, md5))
  }

  /**
   * For a value given in the template, the hash as written is the time of
   * the request, so it differs between two requests for the same value;
   * with the branches the right way round it is the value's digest, the
   * same on both.
   */
  lemma HashFollowsClock(cfg: Config, c1: string, c2: string, md5: Digest)
    requires !cfg.base.random && cfg.base.value.Str? && cfg.returnValueHash && c1 != c2
    ensures AttributesAsWritten(cfg, c1, md5).Ok? && AttributesAsWritten(cfg, c2, md5).Ok?
    ensures AttributesAsWritten(cfg, c1, md5) != AttributesAsWritten(cfg, c2, md5)
    ensures Attributes(cfg, c1, md5) == Attributes(cfg, c2, md5)
    ensures Get(Attributes(cfg, c1, md5).value, "ValueHash") == Some(Str(md5(cfg.base.value.s)))
  {
    AttributesWithContents(cfg, HashAsWritten(cfg, c1, md5));
    AttributesWithContents(cfg, HashAsWritten(cfg, c2, md5));
    AttributesWithContents(cfg, Old.ValueHash(cfg, c1, md5));
  }

  // ---------------------------------------------------------------- tags

  /**
   * The old tags whose key is not among `keep`, whole, in order; it raises
   * at the first old tag without a key.
   */
  function DroppedTags(prev: seq<Value>, keep: seq<Value>): (r: Result<seq<Value>, Error>)
    ensures r.Ok? <==> forall i :: 0 <= i < |prev| ==> SsmTags.TagKey(prev[i]).Ok?
    ensures r.Ok? ==> forall t :: t in r.value <==> t in prev && SsmTags.TagKey(t).Ok? && SsmTags.TagKey(t).value !in keep
  {
    if |prev| == 0 then Ok([])
    else
      match SsmTags.TagKey(prev[0])
      case Err(e) => Err(e)
      case Ok(k) =>
        assert forall i :: 1 <= i < |prev| ==> prev[1..][i - 1] == prev[i];
        match DroppedTags(prev[1..], keep)
        case Err(e) => Err(e)
        case Ok(rest) =>
          assert forall t :: t in prev <==> t == prev[0] || t in prev[1..] by {
            assert prev == [prev[0]] + prev[1..];
          }
          if k in keep then Ok(rest) else Ok([prev[0]] + rest)
  }

  /** The removal request as sent: the dropped tags under `Tags`, where the client expects `TagKeys`. */
  function RemoveByTagsCall(id: string, dropped: seq<Value>): ApiCall {
    ApiCall("remove_tags_from_resource", ResourceArgs(id, "Tags", List(dropped)))
  }

  /** `update_tags` as written. */
  function SyncStepsAsWritten(id: string, newTags: Value, oldTags: Value, current: Value): (steps: seq<Step>)
    ensures |steps| > 0
    ensures steps[|steps| - 1] == Call(AddTagsCall(id, current)) || (|steps| == 1 && steps[0].Fail?)
  {
    match SsmTags.Items(oldTags)
    case Err(e) => [Fail(e)]
    case Ok(prev) =>
      if |prev| == 0 then [Call(AddTagsCall(id, current))]
      else
        match SsmTags.Items(newTags)
        case Err(e) => [Fail(e)]
        case Ok(next) =>
          match SsmTags.TagKeys(next)
          case Err(e) => [Fail(e)]
          case Ok(keep) =>
            match DroppedTags(prev, keep)
            case Err(e) => [Fail(e)]
            case Ok(ds) =>
              (if |ds| > 0 then [Call(RemoveByTagsCall(id, ds))] else []) + [Call(AddTagsCall(id, current))]
  }

  /** The client refuses the removal request: it has no TagKeys argument. */
  lemma RemoveByTagsRefused(p: Params, id: string, dropped: seq<Value>)
    ensures Apply(p, RemoveByTagsCall(id, dropped)) == Err(ParamValidation)
  {
    var args := RemoveByTagsCall(id, dropped).args;
    assert args[2].0 == "Tags";
    assert !TagArgsValid(args, "TagKeys");
  }

  /**
   * When a well-formed old tag list has a key the new list lacks, the
   * removal request is sent first.
   */
  lemma DropSendsRemoval(id: string, newTags: Value, oldTags: Value, current: Value, k: string)
    requires TagList(oldTags).Some? && TagList(newTags).Some?
    requires HasKey(TagList(oldTags).value, k) && !HasKey(TagList(newTags).value, k)
    ensures var steps := SyncStepsAsWritten(id, newTags, oldTags, current);
      |steps| == 2 && steps[0].Call? && exists ds :: steps[0].call == RemoveByTagsCall(id, ds)
  {
    SsmTags.TagListKeys(oldTags);
    SsmTags.TagListKeys(newTags);
    var keep := SsmTags.TagKeys(newTags.items).value;
    var i := DroppedAt(oldTags, newTags, keep, k);
    var ds := DroppedTags(oldTags.items, keep).value;
    assert oldTags.items[i] in ds;
  }

  /** A tag whose key the new list lacks is one of those `DroppedTags` reports. */
  lemma DroppedAt(oldTags: Value, newTags: Value, keep: seq<Value>, k: string) returns (i: int)
    requires TagList(oldTags).Some? && TagList(newTags).Some?
    requires forall j :: 0 <= j < |oldTags.items| ==> SsmTags.TagKey(oldTags.items[j]) == Ok(Str(TagList(oldTags).value[j].0))
    requires |keep| == |newTags.items|
    requires forall j :: 0 <= j < |newTags.items| ==> keep[j] == Str(TagList(newTags).value[j].0)
    requires HasKey(TagList(oldTags).value, k) && !HasKey(TagList(newTags).value, k)
    ensures 0 <= i < |oldTags.items| && SsmTags.TagKey(oldTags.items[i]) == Ok(Str(k)) && Str(k) !in keep
  {
    var od, nd := TagList(oldTags).value, TagList(newTags).value;
    i :| 0 <= i < |od| && od[i].0 == k;
  }

  /**
   * Whenever an update drops a tag key, the sync as written fails with the
   * client's validation error and changes nothing; the sync with `TagKeys`
   * succeeds and leaves exactly the new tags.
   */
  lemma DropRefused(p: Params, id: string, newTags: Value, oldTags: Value, k: string)
    requires id in p
    requires TagList(oldTags).Some? && TagList(newTags).Some? && UniqueKeys(TagList(newTags).value)
    requires forall k' :: HasKey(p[id].tags, k') ==> HasKey(TagList(oldTags).value, k')
    requires HasKey(TagList(oldTags).value, k) && !HasKey(TagList(newTags).value, k)
    ensures Exec(p, SyncStepsAsWritten(id, newTags, oldTags, newTags)) == Done(Some(Api(ParamValidation)), p)
    ensures SsmTags.TaggedExactly(p, Exec(p, SsmTags.SyncSteps(id, newTags, oldTags, newTags)), id, TagList(newTags).value)
  {
    DropSendsRemoval(id, newTags, oldTags, newTags, k);
    var steps := SyncStepsAsWritten(id, newTags, oldTags, newTags);
    var ds :| steps[0].call == RemoveByTagsCall(id, ds);
    RemoveByTagsRefused(p, id, ds);
    SsmTags.ExecOne(p, steps[0].call);
    assert steps == [steps[0]] + steps[1..];
    SsmTags.SyncLeavesNewTags(p, id, oldTags, newTags);
  }

  // ---------------------------------------------------------------- create, update

  function PutOp(cfg: Config, overwrite: bool, id0: Option<string>, p: Params, clock: string, md5: Digest): Outcome<Params> {
    P.PutThen(P.PutRequest(cfg.base, overwrite), cfg.base.name, cfg.base.tags, id0, p, AttributesAsWritten(cfg, clock, md5))
  }

  function Create(cfg: Config, p: Params, clock: string, md5: Digest): Outcome<Params> {
    PutOp(cfg, false, None, p, clock, md5)
  }

  /**
   * `update`: a Name change is a create; a Description, Type or KeyId
   * change is refused for a random value whose RandomValue did not change;
   * otherwise the parameter is put with overwrite, and Tags are
   * resynchronised if they changed.
   */
  function Update(cfg: Config, props: Props, oldProps: Props, id: string, changed: Changed, p: Params,
                  clock: string, md5: Digest): (o: Outcome<Params>)
    ensures o.id == Some(id) || o.id == Some(cfg.base.name)
  {
    if changed(props, oldProps, "Name") then PutOp(cfg, false, Some(id), p, clock, md5)
    else if cfg.base.random && !changed(props, oldProps, "RandomValue") && Old.NeedPut(props, oldProps, changed) then
      Raise(RuntimeError("Would need to overwrite previous RandomValue"), Some(id), p)
    else
      var put := PutOp(cfg, true, Some(id), p, clock, md5);
      if put.ret.Raised? then put
      else
        var tagged := if changed(props, oldProps, "Tags")
                      then Exec(put.after, SyncStepsAsWritten(cfg.base.name, cfg.base.tags, GetOr(oldProps, "Tags", List([])), cfg.base.tags))
                      else Done(None, put.after);
        if tagged.error.Some? then Raise(tagged.error.value, Some(cfg.base.name), tagged.after)
        else
          match AttributesAsWritten(cfg, clock, md5)
          case Err(e) => Raise(e, Some(cfg.base.name), tagged.after)
          case Ok(attrs) => Return(attrs, Some(cfg.base.name), tagged.after)
  }

  /** A Name change is a create of the new name under the old physical id. */
  lemma UpdateRenameCreates(cfg: Config, props: Props, oldProps: Props, id: string, changed: Changed, p: Params,
                            clock: string, md5: Digest)
    requires changed(props, oldProps, "Name")
    ensures Update(cfg, props, oldProps, id, changed, p, clock, md5) == PutOp(cfg, false, Some(id), p, clock, md5)
  {
  }

  /**
   * Every update that is not a rename or refused overwrites the stored
   * parameter with the configured one. For a random value whose RandomValue
   * is unchanged that stores the value drawn for this request, although the
   * value should be kept: an update with nothing but, say, ReturnValue
   * changed replaces the secret. The current provider puts only on a
   * change that needs it (see `SsmParameter.UpdateRetags`).
   */
  lemma UpdateRegeneratesRandom(cfg: Config, props: Props, oldProps: Props, id: string, changed: Changed, p: Params,
                                clock: string, md5: Digest, nd: Dict<string>)
    requires cfg.base.random && !changed(props, oldProps, "RandomValue")
    requires !changed(props, oldProps, "Name") && !Old.NeedPut(props, oldProps, changed) && !changed(props, oldProps, "Tags")
    requires P.WellTyped(cfg.base) && cfg.base.name in p && TagList(cfg.base.tags) == Some(nd)
    requires AttributesAsWritten(cfg, clock, md5).Ok?
    ensures var o := Update(cfg, props, oldProps, id, changed, p, clock, md5);
      o.ret.Returned? && cfg.base.name in o.after && o.after[cfg.base.name].value == cfg.base.value.s
  {
    var q := p[cfg.base.name := P.Stored(cfg.base, p[cfg.base.name].tags)];
    var r := p[cfg.base.name := P.Stored(cfg.base, Dicts.Update(p[cfg.base.name].tags, nd))];
    P.OverwriteKeepsTags(cfg.base, p);
    P.TagsAdded(cfg.base, p, nd);
    P.PutThenSucceeds(P.PutRequest(cfg.base, true), cfg.base.name, cfg.base.tags, Some(id), p,
                      AttributesAsWritten(cfg, clock, md5), q, r);
  }

  /** The same refusal as the other providers: a random value is not overwritten by a Description, Type or KeyId change. */
  lemma UpdateRefusesRandomRegen(cfg: Config, props: Props, oldProps: Props, id: string, changed: Changed, p: Params,
                                 clock: string, md5: Digest)
    requires !changed(props, oldProps, "Name") && cfg.base.random && !changed(props, oldProps, "RandomValue")
    requires Old.NeedPut(props, oldProps, changed)
    ensures var o := Update(cfg, props, oldProps, id, changed, p, clock, md5);
      o.ret.Raised? && o.ret.err.RuntimeError? && o.after == p && o.id == Some(id)
  {
  }

  /** `delete`: as in the other providers. */
  function Delete(id: string, p: Params): (o: Outcome<Params>)
    ensures o.ret == Returned(None) && o.after == p - {id} && o.id == Some(id)
  {
    DeleteResource(id, p)
  }
}
