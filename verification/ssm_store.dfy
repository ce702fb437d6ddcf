/**
 * The part of AWS Systems Manager Parameter Store the parameter providers
 * use: named parameters with a type, a value, a description, an optional KMS
 * key and tags, changed through `put_parameter`, `add_tags_to_resource`,
 * `remove_tags_from_resource` and `delete_parameter`. Requests arrive as
 * keyword arguments, so a request whose arguments have the wrong names or
 * types is refused the way the client refuses it, with a parameter
 * validation error.
 */
module SsmStore {
  import opened Wrappers
  import opened Dicts
  import opened Values
  import opened Lifecycle

  datatype Param = Param(kind: string, value: string, description: string, keyId: Option<string>, tags: Dict<string>)

  type Params = map<string, Param>


  /** A tag request naming a parameter that does not exist. */
  const InvalidResourceId: ApiError := Other("InvalidResourceId")

  // ---------------------------------------------------------------- arguments

  function StrArg(args: Props, k: string): (r: Option<string>)
    ensures r.Some? <==> Get(args, k).Some? && Get(args, k).value.Str?
    ensures r.Some? ==> Get(args, k) == Some(Str(r.value))
  {
    var g := Get(args, k);
    if g.Some? && g.value.Str? then Some(g.value.s) else None
  }

  /** A list of `{'Key': k, 'Value': v}` mappings with string keys and values. */
  function TagList(v: Value): (r: Option<Dict<string>>)
    ensures r.Some? ==> v.List? && |r.value| == |v.items|
  {
    match v
    case List(items) => TagItems(items)
    case _ => None
  }

  function TagItems(items: seq<Value>): (r: Option<Dict<string>>)
    ensures r.Some? ==> |r.value| == |items|
  {
    if |items| == 0 then Some([])
    else
      match (TagPair(items[0]), TagItems(items[1..]))
      case (Some(p), Some(rest)) => Some([p] + rest)
      case _ => None
  }

  function TagPair(v: Value): Option<(string, string)> {
    match v
    case Obj(d) =>
      var k := GetValue(d, "Key");
      var x := GetValue(d, "Value");
      if k.Str? && x.Str? then Some((k.s, x.s)) else None
    case _ => None
  }

  /** A list of strings. */
  function KeyList(v: Value): Option<seq<string>> {
    match v
    case List(items) => StrItems(items)
    case _ => None
  }

  function StrItems(items: seq<Value>): (r: Option<seq<string>>)
    ensures r.Some? ==> |r.value| == |items|
    ensures r.Some? ==> forall i :: 0 <= i < |items| ==> items[i] == Str(r.value[i])
  {
    if |items| == 0 then Some([])
    else
      match (items[0], StrItems(items[1..]))
      case (Str(s), Some(rest)) => Some([s] + rest)
      case _ => None
  }

  /** The tags with every key in `ks` removed. */
  function RemoveKeys(d: Dict<string>, ks: seq<string>): (r: Dict<string>)
    decreases |ks|
  {
    if |ks| == 0 then d else RemoveKeys(Remove(d, ks[0]), ks[1..])
  }

  lemma {:induction false} RemoveKeysGet(d: Dict<string>, ks: seq<string>, k: string)
    ensures Get(RemoveKeys(d, ks), k) == if k in ks then None else Get(d, k)
    decreases |ks|
  {
    if |ks| > 0 {
      RemoveKeysGet(Remove(d, ks[0]), ks[1..], k);
      if k != ks[0] {
        RemoveGet(d, ks[0], k);
      } else {
        assert !HasKey(Remove(d, k), k);
        if k in ks[1..] {
        } else {
          assert Get(RemoveKeys(Remove(d, ks[0]), ks[1..]), k) == Get(Remove(d, k), k);
        }
      }
    }
  }

  // ---------------------------------------------------------------- requests

  /** `put_parameter(Name, Type, Value, Description, Overwrite[, KeyId])` */
  function PutParameter(p: Params, args: Props): (r: Result<Params, ApiError>)
    ensures r.Ok? ==> StrArg(args, "Name").Some? && StrArg(args, "Name").value in r.value
    ensures r.Ok? ==> forall n :: n in p && n != StrArg(args, "Name").value ==> n in r.value && r.value[n] == p[n]
    ensures r.Ok? ==> r.value.Keys == p.Keys + {StrArg(args, "Name").value}
    ensures r.Err? && r.error == ParameterAlreadyExists <==>
      (StrArg(args, "Name").Some? && StrArg(args, "Name").value in p &&
       PutArgsValid(args) && Get(args, "Overwrite") == Some(Bool(false)))
  {
    if !PutArgsValid(args) then Err(ParamValidation)
    else
      var name := StrArg(args, "Name").value;
      var overwrite := Get(args, "Overwrite").value.b;
      if name in p && !overwrite then Err(ParameterAlreadyExists)
      else
        var tags := if name in p then p[name].tags else [];
        var keyId := StrArg(args, "KeyId");
        Ok(p[name := Param(StrArg(args, "Type").value, StrArg(args, "Value").value,
                           StrArg(args, "Description").value, keyId, tags)])
  }

  predicate PutArgsValid(args: Props) {
    StrArg(args, "Name").Some? && StrArg(args, "Type").Some? && StrArg(args, "Value").Some? &&
    StrArg(args, "Description").Some? &&
    Get(args, "Overwrite").Some? && Get(args, "Overwrite").value.Bool? &&
    (HasKey(args, "KeyId") ==> StrArg(args, "KeyId").Some?) &&
    forall i :: 0 <= i < |args| ==> args[i].0 in PutArgNames
  }

  const PutArgNames: set<string> := {"Name", "Type", "Value", "Description", "Overwrite", "KeyId"}

  predicate TagArgsValid(args: Props, list: string) {
    Get(args, "ResourceType") == Some(Str("Parameter")) && StrArg(args, "ResourceId").Some? &&
    HasKey(args, list) &&
    forall i :: 0 <= i < |args| ==> args[i].0 in {"ResourceType", "ResourceId", list}
  }

  /** `add_tags_to_resource(ResourceType='Parameter', ResourceId, Tags)` */
  function AddTags(p: Params, args: Props): (r: Result<Params, ApiError>)
    ensures r.Ok? ==> TagArgsValid(args, "Tags") && TagList(GetValue(args, "Tags")).Some?
    ensures r.Ok? ==> var name := StrArg(args, "ResourceId").value;
      name in p && r.value == p[name := p[name].(tags := Update(p[name].tags, TagList(GetValue(args, "Tags")).value))]
  {
    if !TagArgsValid(args, "Tags") then Err(ParamValidation)
    else
      match TagList(GetValue(args, "Tags"))
      case None => Err(ParamValidation)
      case Some(tags) =>
        var name := StrArg(args, "ResourceId").value;
        if name !in p then Err(InvalidResourceId)
        else Ok(p[name := p[name].(tags := Update(p[name].tags, tags))])
  }

  /** `remove_tags_from_resource(ResourceType='Parameter', ResourceId, TagKeys)` */
  function RemoveTags(p: Params, args: Props): (r: Result<Params, ApiError>)
    ensures r.Ok? ==> TagArgsValid(args, "TagKeys") && KeyList(GetValue(args, "TagKeys")).Some?
    ensures r.Ok? ==> var name := StrArg(args, "ResourceId").value;
      name in p && r.value == p[name := p[name].(tags := RemoveKeys(p[name].tags, KeyList(GetValue(args, "TagKeys")).value))]
    ensures !HasKey(args, "TagKeys") ==> r == Err(ParamValidation)
  {
    if !TagArgsValid(args, "TagKeys") then Err(ParamValidation)
    else
      match KeyList(GetValue(args, "TagKeys"))
      case None => Err(ParamValidation)
      case Some(keys) =>
        var name := StrArg(args, "ResourceId").value;
        if name !in p then Err(InvalidResourceId)
        else Ok(p[name := p[name].(tags := RemoveKeys(p[name].tags, keys))])
  }

  /** `delete_parameter(Name)` */
  function DeleteParameter(p: Params, args: Props): (r: Result<Params, ApiError>)
    ensures r.Ok? ==> StrArg(args, "Name").Some? && StrArg(args, "Name").value in p
    ensures r.Ok? ==> r.value == p - {StrArg(args, "Name").value}
    ensures r == Err(ParameterNotFound) <==>
      (StrArg(args, "Name").Some? && StrArg(args, "Name").value !in p &&
       forall i :: 0 <= i < |args| ==> args[i].0 == "Name")
  {
    if StrArg(args, "Name").None? || !(forall i :: 0 <= i < |args| ==> args[i].0 == "Name") then Err(ParamValidation)
    else
      var name := StrArg(args, "Name").value;
      if name !in p then Err(ParameterNotFound) else Ok(p - {name})
  }

  /** One request against the store. */
  function Apply(p: Params, call: ApiCall): Result<Params, ApiError> {
    match call.op
    case "put_parameter" => PutParameter(p, call.args)
    case "add_tags_to_resource" => AddTags(p, call.args)
    case "remove_tags_from_resource" => RemoveTags(p, call.args)
    case "delete_parameter" => DeleteParameter(p, call.args)
    case _ => Err(Other("UnknownOperation"))
  }

  // ---------------------------------------------------------------- steps

  /** What a provider does next: send a request, or raise from Python code. */
  datatype Step = Call(call: ApiCall) | Fail(error: Error)

  datatype Done = Done(error: Option<Error>, after: Params)

  /** Carry out steps in order, stopping at the first that raises. */
  function Exec(p: Params, steps: seq<Step>): Done
    decreases |steps|
  {
    if |steps| == 0 then Done(None, p)
    else
      match steps[0]
      case Fail(e) => Done(Some(e), p)
      case Call(c) =>
        match Apply(p, c)
        case Err(e) => Done(Some(Api(e)), p)
        case Ok(p') => Exec(p', steps[1..])
  }

  lemma {:induction false} ExecAppend(p: Params, a: seq<Step>, b: seq<Step>)
    ensures Exec(p, a + b) == (var d := Exec(p, a); if d.error.Some? then d else Exec(d.after, b))
    decreases |a|
  {
    if |a| > 0 {
      assert (a + b)[0] == a[0];
      assert (a + b)[1..] == a[1..] + b;
      if a[0].Call? && Apply(p, a[0].call).Ok? {
        ExecAppend(Apply(p, a[0].call).value, a[1..], b);
      }
    } else {
      assert a + b == b;
    }
  }

  /** The request sent for `put_parameter`. */
  function PutCall(name: string, kind: Value, value: Value, description: Value, keyId: Value, overwrite: bool): (c: ApiCall)
    ensures c.op == "put_parameter"
    ensures Get(c.args, "Name") == Some(Str(name)) && Get(c.args, "Overwrite") == Some(Bool(overwrite))
    ensures HasKey(c.args, "KeyId") <==> IsPresent(keyId)
  {
    var base := [("Name", Str(name)), ("Type", kind), ("Value", value), ("Description", description),
                 ("Overwrite", Bool(overwrite))];
    var args := if IsPresent(keyId) then base + [("KeyId", keyId)] else base;
    PutCallLeading(args, name, overwrite);
    assert HasKey(args, "KeyId") <==> IsPresent(keyId) by {
      if IsPresent(keyId) { assert args[5].0 == "KeyId"; }
    }
    ApiCall("put_parameter", args)
  }

  /** The first argument is the Name and the fifth the Overwrite flag, named nowhere before it. */
  lemma PutCallLeading(args: Props, name: string, overwrite: bool)
    requires |args| >= 5 && args[0] == ("Name", Str(name)) && args[4] == ("Overwrite", Bool(overwrite))
    requires args[1].0 == "Type" && args[2].0 == "Value" && args[3].0 == "Description"
    ensures Get(args, "Name") == Some(Str(name)) && Get(args, "Overwrite") == Some(Bool(overwrite))
  {
    GetHead(args, "Name");
    GetHead(args, "Overwrite");
    var i := 1;
    while i < 4
      invariant 1 <= i <= 4
      invariant Get(args, "Overwrite") == Get(args[i..], "Overwrite")
    {
      GetHead(args[i..], "Overwrite");
      assert args[i..][1..] == args[i + 1..];
      i := i + 1;
    }
    GetHead(args[4..], "Overwrite");
  }

  /** The put request carries the given type, value, description and key. */
  lemma PutCallArgs(name: string, kind: Value, value: Value, description: Value, keyId: Value, overwrite: bool)
    ensures var c := PutCall(name, kind, value, description, keyId, overwrite);
      Get(c.args, "Type") == Some(kind) && Get(c.args, "Value") == Some(value) &&
      Get(c.args, "Description") == Some(description) &&
      (IsPresent(keyId) ==> Get(c.args, "KeyId") == Some(keyId))
  {
    var args := PutCall(name, kind, value, description, keyId, overwrite).args;
    PutCallArg(name, kind, value, description, keyId, overwrite, 1);
    assert args[1] == ("Type", kind);
    PutCallArg(name, kind, value, description, keyId, overwrite, 2);
    assert args[2] == ("Value", value);
    PutCallArg(name, kind, value, description, keyId, overwrite, 3);
    assert args[3] == ("Description", description);
    if IsPresent(keyId) {
      PutCallArg(name, kind, value, description, keyId, overwrite, 5);
      assert args[5] == ("KeyId", keyId);
    }
  }

  /** The put request has no argument the client does not know. */
  lemma PutCallNames(name: string, kind: Value, value: Value, description: Value, keyId: Value, overwrite: bool)
    ensures var c := PutCall(name, kind, value, description, keyId, overwrite);
      forall i :: 0 <= i < |c.args| ==> c.args[i].0 in PutArgNames
  {
  }

  /** Lookup of the put request's `n`-th argument finds that argument. */
  lemma PutCallArg(name: string, kind: Value, value: Value, description: Value, keyId: Value, overwrite: bool, n: nat)
    requires n in {1, 2, 3} || (n == 5 && IsPresent(keyId))
    ensures var args := PutCall(name, kind, value, description, keyId, overwrite).args;
      n < |args| && Get(args, args[n].0) == Some(args[n].1)
  {
    var args := PutCall(name, kind, value, description, keyId, overwrite).args;
    assert args[0].0 == "Name" && args[1].0 == "Type" && args[2].0 == "Value";
    assert args[3].0 == "Description" && args[4].0 == "Overwrite";
    if n == 5 {
      assert args[5].0 == "KeyId";
    }
    PutCallGet(args, n, args[n].0, args[n].1);
  }

  /** In the put request the argument at position `n` is the only one named `k`. */
  lemma PutCallGet(args: Props, n: nat, k: string, v: Value)
    requires |args| >= 5 && n < |args| && args[n] == (k, v)
    requires args[0].0 == "Name" && args[1].0 == "Type" && args[2].0 == "Value"
    requires args[3].0 == "Description" && args[4].0 == "Overwrite"
    requires k in PutArgNames && k != "Overwrite"
    requires forall i :: 0 <= i < n ==> args[i].0 != k
    ensures Get(args, k) == Some(v)
  {
    var i := 0;
    while i < n
      invariant i <= n
      invariant Get(args, k) == Get(args[i..], k)
    {
      GetHead(args[i..], k);
      assert args[i..][1..] == args[i + 1..];
      i := i + 1;
    }
    GetHead(args[n..], k);
  }

  function ResourceArgs(id: string, list: string, v: Value): Props {
    [("ResourceType", Str("Parameter")), ("ResourceId", Str(id)), (list, v)]
  }

  function AddTagsCall(id: string, tags: Value): ApiCall {
    ApiCall("add_tags_to_resource", ResourceArgs(id, "Tags", tags))
  }

  function RemoveTagsCall(id: string, keys: seq<Value>): ApiCall {
    ApiCall("remove_tags_from_resource", ResourceArgs(id, "TagKeys", List(keys)))
  }

  function DeleteCall(id: string): ApiCall {
    ApiCall("delete_parameter", [("Name", Str(id))])
  }

  /**
   * `delete`: remove the parameter named by the physical id; one that is
   * already gone counts as deleted.
   */
  function DeleteResource(id: string, p: Params): (o: Outcome<Params>)
    ensures o.ret == Returned(None) && o.after == p - {id}
    ensures o.id == Some(id)
  {
    match DeleteParameter(p, DeleteCall(id).args)
    case Ok(p') => ReturnNone(Some(id), p')
    case Err(ParameterNotFound) => ReturnNone(Some(id), p)
    case Err(e) =>
      assert false;
      Raise(Api(e), Some(id), p)
  }
}
