/**
 * The provider that reads JSON-encoded SSM parameters and returns them
 * merged into one mapping, as the resource's attributes. Where parameters
 * share a key, the earliest parameter in the response wins, as in a
 * `ChainMap` of the parsed mappings.
 */
module SsmParseDict {
  import opened Wrappers
  import opened Dicts
  import opened Values
  import opened Lifecycle

  /** `validate`: Names must be given and non-empty (truthy). */
  function Validate(props: Props): (r: Result<Value, Error>)
    ensures r.Ok? <==> Truthy(GetValue(props, "Names"))
    ensures r.Ok? ==> r.value == GetValue(props, "Names")
    ensures r.Err? ==> r.error == Invalid
  {
    var names := GetValue(props, "Names");
    if Truthy(names) then Ok(names) else Err(Invalid)
  }

  /**
   * `dict(ChainMap(*maps))`: the keys are collected from the last mapping
   * to the first, each key's value taken from the first mapping holding it.
   */
  function Merge(maps: seq<Props>): Props
  {
    if |maps| == 0 then [] else Update(Merge(maps[1..]), maps[0])
  }

  /** The value a chain of mappings gives a key: the first mapping's that has it. */
  function FirstHaving(maps: seq<Props>, k: string): (r: Option<Value>)
    ensures r.Some? <==> exists i :: 0 <= i < |maps| && HasKey(maps[i], k)
  {
    if |maps| == 0 then None
    else if HasKey(maps[0], k) then Get(maps[0], k)
    else
      var r := FirstHaving(maps[1..], k);
      assert forall i :: 1 <= i < |maps| ==> maps[i] == maps[1..][i - 1];
      r
  }

  /**
   * The merged mapping answers every key as the chain does: the earliest
   * parameter holding the key decides its value, and keys held by none are
   * absent.
   */
  lemma {:induction false} MergeGet(maps: seq<Props>, k: string)
    requires forall i :: 0 <= i < |maps| ==> UniqueKeys(maps[i])
    ensures Get(Merge(maps), k) == FirstHaving(maps, k)
    decreases |maps|
  {
    if |maps| > 0 {
      MergeGet(maps[1..], k);
      UpdateGet(Merge(maps[1..]), maps[0], k);
    }
  }

  /** The merged mapping has each key of every parameter, once. */
  lemma {:induction false} MergeKeys(maps: seq<Props>)
    ensures UniqueKeys(Merge(maps))
    ensures forall k :: HasKey(Merge(maps), k) <==> exists i :: 0 <= i < |maps| && HasKey(maps[i], k)
    decreases |maps|
  {
    if |maps| > 0 {
      MergeKeys(maps[1..]);
      UpdateUnique(Merge(maps[1..]), maps[0]);
      forall k ensures (exists i :: 0 <= i < |maps| && HasKey(maps[i], k)) <==>
                       HasKey(maps[0], k) || exists i :: 0 <= i < |maps[1..]| && HasKey(maps[1..][i], k)
      {
        if exists i :: 0 <= i < |maps| && HasKey(maps[i], k) {
          var i :| 0 <= i < |maps| && HasKey(maps[i], k);
          if i > 0 {
            assert maps[1..][i - 1] == maps[i];
          }
        }
        if exists i :: 0 <= i < |maps[1..]| && HasKey(maps[1..][i], k) {
          var i :| 0 <= i < |maps[1..]| && HasKey(maps[1..][i], k);
          assert maps[i + 1] == maps[1..][i];
        }
      }
    }
  }

  /**
   * `json.loads(param['Value'])` for every parameter returned, each of which
   * must be a JSON object. `parse` stands for `json.loads` on a string.
   */
  function ParseAll(params: seq<Value>, parse: string -> Result<Value, Error>): (r: Result<seq<Props>, Error>)
    ensures r.Ok? ==> |r.value| == |params|
    ensures r.Ok? ==> forall i :: 0 <= i < |params| ==>
      Index(params[i], "Value").Ok? && Index(params[i], "Value").value.Str? &&
      parse(Index(params[i], "Value").value.s) == Ok(Obj(r.value[i]))
  {
    if |params| == 0 then Ok([])
    else
      var text :- Index(params[0], "Value");
      if !text.Str? then Err(TypeError("the JSON object must be str"))
      else
        var parsed :- parse(text.s);
        if !parsed.Obj? then Err(TypeError("not a mapping"))
        else
          var rest :- ParseAll(params[1..], parse);
          assert forall i :: 1 <= i < |params| ==> params[i] == params[1..][i - 1];
          Ok([parsed.fields] + rest)
  }

  function GetCall(names: Value): ApiCall {
    ApiCall("get_parameters", [("Names", names)])
  }

  /**
   * `create` (and `update`, which is the same): fetch the named parameters
   * and return their merged contents as the attributes.
   */
  function Create(names: Value, id: Option<string>, api: Api, parse: string -> Result<Value, Error>): (o: Outcome<seq<ApiCall>>)
    ensures o.after == [GetCall(names)] && o.id == id
    ensures o.ret.Returned? ==> exists params: seq<Value> ::
      api(GetCall(names)).Ok? &&
      Index(api(GetCall(names)).value, "Parameters") == Ok(List(params)) &&
      ParseAll(params, parse).Ok? &&
      o.ret.data == Some(Merge(ParseAll(params, parse).value))
  {
    var call := GetCall(names);
    match api(call)
    case Err(e) => Raise(Api(e), id, [call])
    case Ok(response) =>
      match Index(response, "Parameters")
      case Err(e) => Raise(e, id, [call])
      case Ok(params) =>
        if !params.List? then Raise(TypeError("not iterable"), id, [call])
        else
          match ParseAll(params.items, parse)
          case Err(e) => Raise(e, id, [call])
          case Ok(maps) => Return(Merge(maps), id, [call])
  }

  /** `delete`: nothing to remove, nothing sent. */
  function Delete(id: string): (o: Outcome<seq<ApiCall>>)
    ensures o.ret == Returned(None) && o.after == [] && o.id == Some(id)
  {
    DeleteNothing(id)
  }
}
