/**
 * The stack tags provider: read the tags of the stack the resource belongs
 * to, drop the keys listed in Omit, set the entries of Set, and return the
 * result both as a mapping (TagDict) and as a list of Key/Value pairs
 * (TagList). Update does the same; delete does nothing.
 */
module CloudFormationTags {
  import opened Wrappers
  import opened Dicts
  import opened Values
  import opened Lifecycle
  import Strings

  /** A CloudFormation client in the given region. */
  type RegionalApi = (string, ApiCall) -> Result<Value, ApiError>

  datatype Config = Config(omit: Value, setTags: Value)

  /** `validate`: Omit defaults to an empty list and Set to an empty mapping. */
  function Validate(props: Props): (cfg: Config)
    ensures cfg.omit == GetOr(props, "Omit", List([]))
    ensures cfg.setTags == GetOr(props, "Set", Obj([]))
  {
    Config(GetOr(props, "Omit", List([])), GetOr(props, "Set", Obj([])))
  }

  /** The stack's region: field 3 of the stack id split at ':'. */
  function StackRegion(stackId: string): (r: Result<string, Error>)
    ensures r.Ok? <==> |Strings.Split(stackId, ':')| > 3
    ensures r.Ok? ==> Strings.Field(stackId, ':', 3) == Some(r.value)
  {
    var parts := Strings.Split(stackId, ':');
    if |parts| > 3 then Ok(parts[3]) else Err(IndexError)
  }

  /**
   * A stack id is colon-separated fields (`arn:aws:cloudformation:<region>:...`);
   * its region is field 3.
   */
  lemma StackRegionOfFields(fields: seq<string>)
    requires |fields| > 3
    requires forall i :: 0 <= i < |fields| ==> ':' !in fields[i]
    ensures StackRegion(Strings.Join(fields, ":")) == Ok(fields[3])
  {
    Strings.SplitJoin(fields, ':');
  }

  /** `tag['Key']`, `tag['Value']` of one stack tag; keys are strings. */
  function KeyValue(tag: Value): Result<(string, Value), Error> {
    var k :- Index(tag, "Key");
    var v :- Index(tag, "Value");
    if k.Str? then Ok((k.s, v)) else Err(TypeError("tag key"))
  }

  /** `{tag['Key']: tag['Value'] for tag in tags}` added to `d`: a later tag with a key overrides an earlier one. */
  function Collect(d: Dict<Value>, tags: seq<Value>): (r: Result<Dict<Value>, Error>)
    ensures r.Ok? <==> forall i :: 0 <= i < |tags| ==> KeyValue(tags[i]).Ok?
    decreases |tags|
  {
    if |tags| == 0 then Ok(d)
    else
      var (k, v) :- KeyValue(tags[0]);
      assert forall i :: 1 <= i < |tags| ==> tags[1..][i - 1] == tags[i];
      Collect(Put(d, k, v), tags[1..])
  }

  /** Some tag of the list has key `k`. */
  predicate TagKeyed(tags: seq<Value>, k: string) {
    exists i :: 0 <= i < |tags| && KeyValue(tags[i]).Ok? && KeyValue(tags[i]).value.0 == k
  }

  lemma TagKeyedCons(tags: seq<Value>, k: string)
    requires |tags| > 0 && KeyValue(tags[0]).Ok?
    ensures TagKeyed(tags, k) <==> KeyValue(tags[0]).value.0 == k || TagKeyed(tags[1..], k)
  {
    if TagKeyed(tags, k) {
      var i :| 0 <= i < |tags| && KeyValue(tags[i]).Ok? && KeyValue(tags[i]).value.0 == k;
      if i > 0 {
        assert tags[1..][i - 1] == tags[i];
      }
    }
    if TagKeyed(tags[1..], k) {
      var i :| 0 <= i < |tags[1..]| && KeyValue(tags[1..][i]).Ok? && KeyValue(tags[1..][i]).value.0 == k;
      assert tags[i + 1] == tags[1..][i];
    }
  }

  /** The collected mapping has unique keys, and exactly the keys of `d` and of the tags. */
  lemma {:induction false} CollectKeys(d: Dict<Value>, tags: seq<Value>, k: string)
    requires UniqueKeys(d)
    requires Collect(d, tags).Ok?
    ensures UniqueKeys(Collect(d, tags).value)
    ensures HasKey(Collect(d, tags).value, k) <==> HasKey(d, k) || TagKeyed(tags, k)
    decreases |tags|
  {
    if |tags| > 0 {
      var (k0, v0) := KeyValue(tags[0]).value;
      PutUnique(d, k0, v0);
      CollectKeys(Put(d, k0, v0), tags[1..], k);
      TagKeyedCons(tags, k);
    }
  }

  /** The collected value of a key is the value of its last tag. */
  lemma {:induction false} CollectLastWins(d: Dict<Value>, tags: seq<Value>, i: nat)
    requires Collect(d, tags).Ok?
    requires i < |tags|
    requires forall j :: i < j < |tags| ==> KeyValue(tags[j]).value.0 != KeyValue(tags[i]).value.0
    ensures Get(Collect(d, tags).value, KeyValue(tags[i]).value.0) == Some(KeyValue(tags[i]).value.1)
    decreases |tags|
  {
    var (k0, v0) := KeyValue(tags[0]).value;
    var (k, v) := KeyValue(tags[i]).value;
    if i == 0 {
      PutGet(d, k0, v0, k0);
      CollectUntouched(Put(d, k0, v0), tags[1..], k);
    } else {
      forall j | i - 1 < j < |tags[1..]| ensures KeyValue(tags[1..][j]).value.0 != k {
        assert tags[1..][j] == tags[j + 1];
      }
      CollectStep(d, tags);
      assert tags[1..][i - 1] == tags[i];
      CollectLastWins(Put(d, k0, v0), tags[1..], i - 1);
    }
  }

  /** One round of the comprehension: the first tag's entry is put, then the rest collected. */
  lemma CollectStep(d: Dict<Value>, tags: seq<Value>)
    requires |tags| > 0 && Collect(d, tags).Ok?
    ensures KeyValue(tags[0]).Ok?
    ensures Collect(d, tags) == Collect(Put(d, KeyValue(tags[0]).value.0, KeyValue(tags[0]).value.1), tags[1..])
  {
  }

  /** Tags without the key leave its value alone. */
  lemma {:induction false} CollectUntouched(d: Dict<Value>, tags: seq<Value>, k: string)
    requires Collect(d, tags).Ok?
    requires forall j :: 0 <= j < |tags| ==> KeyValue(tags[j]).value.0 != k
    ensures Get(Collect(d, tags).value, k) == Get(d, k)
    decreases |tags|
  {
    if |tags| > 0 {
      var (k0, v0) := KeyValue(tags[0]).value;
      PutGet(d, k0, v0, k);
      forall j | 0 <= j < |tags[1..]| ensures KeyValue(tags[1..][j]).value.0 != k {
        assert tags[1..][j] == tags[j + 1];
      }
      CollectUntouched(Put(d, k0, v0), tags[1..], k);
    }
  }

  /** `for key in omit: d.pop(key, None)`; only a string can be a key of the tags. */
  function RemoveAll(d: Dict<Value>, omit: seq<Value>): (r: Dict<Value>)
    ensures |r| <= |d|
    decreases |omit|
  {
    if |omit| == 0 then d
    else if omit[0].Str? then RemoveAll(Remove(d, omit[0].s), omit[1..])
    else RemoveAll(d, omit[1..])
  }

  lemma {:induction false} RemoveAllGet(d: Dict<Value>, omit: seq<Value>, k: string)
    ensures Get(RemoveAll(d, omit), k) == if Str(k) in omit then None else Get(d, k)
    decreases |omit|
  {
    if |omit| > 0 {
      if omit[0].Str? {
        RemoveAllGet(Remove(d, omit[0].s), omit[1..], k);
        if omit[0].s != k {
          RemoveGet(d, omit[0].s, k);
        }
      } else {
        RemoveAllGet(d, omit[1..], k);
      }
      assert omit == [omit[0]] + omit[1..];
    }
  }

  /** Omit, then Set: the tags after the merge. */
  function Merge(tags: Dict<Value>, cfg: Config): (r: Result<Dict<Value>, Error>)
    ensures r.Ok? <==> cfg.omit.List? && cfg.setTags.Obj?
  {
    if !cfg.omit.List? then Err(TypeError("Omit is not iterable"))
    else if !cfg.setTags.Obj? then Err(AttributeError("items"))
    else Ok(Dicts.Update(RemoveAll(tags, cfg.omit.items), cfg.setTags.fields))
  }

  /**
   * After the merge a key of Set has its Set value, a key listed in Omit
   * and not in Set is gone, and any other key keeps the stack's value.
   */
  lemma MergeGet(tags: Dict<Value>, cfg: Config, k: string)
    requires Merge(tags, cfg).Ok?
    requires UniqueKeys(cfg.setTags.fields)
    ensures Get(Merge(tags, cfg).value, k) ==
      if HasKey(cfg.setTags.fields, k) then Get(cfg.setTags.fields, k)
      else if Str(k) in cfg.omit.items then None
      else Get(tags, k)
  {
    UpdateGet(RemoveAll(tags, cfg.omit.items), cfg.setTags.fields, k);
    RemoveAllGet(tags, cfg.omit.items, k);
  }

  /** `[{'Key': k, 'Value': v} for k, v in d.items()]` */
  function TagList(d: Dict<Value>): (r: seq<Value>)
    ensures |r| == |d|
    ensures forall i :: 0 <= i < |d| ==> r[i] == Obj([("Key", Str(d[i].0)), ("Value", d[i].1)])
  {
    PairList(d, "Key", "Value")
  }

  function DescribeCall(stackId: string): ApiCall {
    ApiCall("describe_stacks", [("StackName", Str(stackId))])
  }

  /** The tags of the first stack of the description. */
  function StackTags(description: Value): Result<seq<Value>, Error> {
    var stacks :- Index(description, "Stacks");
    if !stacks.List? then Err(TypeError("Stacks"))
    else if |stacks.items| == 0 then Err(IndexError)
    else
      var tags :- Index(stacks.items[0], "Tags");
      if tags.List? then Ok(tags.items) else Err(TypeError("Tags"))
  }

  /** `create` (and `update`): describe the stack in its region, merge, and return both forms. */
  function Create(cfg: Config, stackId: string, api: RegionalApi): (r: Result<Props, Error>)
    ensures StackRegion(stackId).Err? ==> r == Err(IndexError)
    ensures r.Ok? ==> StackRegion(stackId).Ok? && api(StackRegion(stackId).value, DescribeCall(stackId)).Ok?
    ensures r.Ok? ==> exists merged ::
      r.value == [("TagDict", Obj(merged)), ("TagList", List(TagList(merged)))] &&
      exists tags :: StackTags(api(StackRegion(stackId).value, DescribeCall(stackId)).value) == Ok(tags) &&
                     Collect([], tags).Ok? && Merge(Collect([], tags).value, cfg) == Ok(merged)
  {
    var region :- StackRegion(stackId);
    match api(region, DescribeCall(stackId))
    case Err(e) => Err(Api(e))
    case Ok(description) =>
      var tags :- StackTags(description);
      var tagDict :- Collect([], tags);
      var merged :- Merge(tagDict, cfg);
      Ok([("TagDict", Obj(merged)), ("TagList", List(TagList(merged)))])
  }

  /** The two outputs describe the same tags: TagList has one pair per TagDict entry, in order. */
  lemma OutputsAgree(cfg: Config, stackId: string, api: RegionalApi)
    requires Create(cfg, stackId, api).Ok?
    ensures var out := Create(cfg, stackId, api).value;
      |out| == 2 && out[0].0 == "TagDict" && out[1].0 == "TagList" && out[0].1.Obj? && out[1].1.List? &&
      |out[1].1.items| == |out[0].1.fields| &&
      forall i :: 0 <= i < |out[0].1.fields| ==>
        out[1].1.items[i] == Obj([("Key", Str(out[0].1.fields[i].0)), ("Value", out[0].1.fields[i].1)])
  {
  }
}
