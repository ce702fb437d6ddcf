/**
 * Property values as CloudFormation hands them to a provider: the JSON-like
 * structures Python sees after `json.loads`, with Python's truthiness and
 * the keyed accessors providers use on property maps.
 */
module Values {
  import opened Wrappers
  import opened Dicts

  datatype Value =
    | Null
    | Bool(b: bool)
    | Int(i: int)
    | Str(s: string)
    | List(items: seq<Value>)
    | Obj(fields: Dict<Value>)

  type Props = Dict<Value>

  /** Python's `bool(v)`. */
  predicate Truthy(v: Value) {
    match v
    case Null => false
    case Bool(b) => b
    case Int(i) => i != 0
    case Str(s) => s != ""
    case List(items) => items != []
    case Obj(fields) => fields != []
  }

  /** `v is not None` */
  predicate IsPresent(v: Value) {
    !v.Null?
  }

  /** `props.get(k)`, with Python's None for a missing key. */
  function GetValue(props: Props, k: string): (r: Value)
    ensures !HasKey(props, k) ==> r == Null
    ensures HasKey(props, k) ==> Get(props, k) == Some(r)
  {
    GetOr(props, k, Null)
  }

  /** A list of strings as a property value. */
  function StrList(ss: seq<string>): (v: Value)
    ensures v.List? && |v.items| == |ss|
    ensures forall i :: 0 <= i < |ss| ==> v.items[i] == Str(ss[i])
  {
    List(seq(|ss|, i requires 0 <= i < |ss| => Str(ss[i])))
  }

  /** `{k: v for k, v in d.items() if v is not None}` */
  function DropNone(d: Props): (r: Props)
    ensures forall i :: 0 <= i < |r| ==> IsPresent(r[i].1) && r[i] in d
  {
    Filter(d, IsPresent)
  }

  /** `[{keyName: k, valueName: v} for k, v in d.items()]`: a mapping as a list of pairs. */
  function PairList(d: Props, keyName: string, valueName: string): (r: seq<Value>)
    ensures |r| == |d|
    ensures forall i :: 0 <= i < |d| ==> r[i] == Obj([(keyName, Str(d[i].0)), (valueName, d[i].1)])
  {
    MapItems(d, (k: string, v: Value) => Obj([(keyName, Str(k)), (valueName, v)]))
  }

  /** Reading a list of pairs back into a mapping; entries of another shape are skipped. */
  function FromPairList(entries: seq<Value>, keyName: string, valueName: string): Props
  {
    if |entries| == 0 then []
    else
      var e := entries[0];
      var rest := FromPairList(entries[1..], keyName, valueName);
      if e.Obj? && |e.fields| == 2 && e.fields[0].0 == keyName && e.fields[0].1.Str? && e.fields[1].0 == valueName
      then [(e.fields[0].1.s, e.fields[1].1)] + rest
      else rest
  }

  /** The list of pairs holds the mapping exactly: reading it back gives the mapping, in order. */
  lemma {:induction false} PairListRoundTrip(d: Props, keyName: string, valueName: string)
    ensures FromPairList(PairList(d, keyName, valueName), keyName, valueName) == d
    decreases |d|
  {
    if |d| > 0 {
      PairListRoundTrip(d[1..], keyName, valueName);
      assert PairList(d, keyName, valueName)[1..] == PairList(d[1..], keyName, valueName);
    }
  }
}
