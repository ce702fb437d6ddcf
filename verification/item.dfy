/**
 * The DynamoDB Item provider: puts one item, built from the ItemKey and
 * ItemValue properties, into a table; the physical id encodes region, table
 * and key. The table is modelled as a store from item address to item.
 */
module DynamoDbItem {
  import opened Wrappers
  import opened Dicts
  import opened Values
  import opened Lifecycle
  import Strings
  import Ordering

  /** The sentinel id held while no item has been written. */
  const NotCreated: string := "NOT CREATED"

  datatype Config = Config(region: string, table: string, key: Props, value: Props, overwrite: bool)

  // ---------------------------------------------------------------- validate

  /** `props.get(k, default)` for a string property. */
  function StrOr(props: Props, k: string, default: string): Result<string, Error> {
    match Get(props, k)
    case None => Ok(default)
    case Some(v) => if v.Str? then Ok(v.s) else Err(TypeError(k))
  }

  /** `props[k]` for a string property. */
  function RequireStr(props: Props, k: string): Result<string, Error> {
    match Get(props, k)
    case None => Err(KeyError(k))
    case Some(v) => if v.Str? then Ok(v.s) else Err(TypeError(k))
  }

  /** The first ItemKey attribute that ItemValue also lists. */
  function FirstShared(key: Props, value: Props): (r: Option<string>)
    ensures r.None? <==> forall i :: 0 <= i < |key| ==> !HasKey(value, key[i].0)
    ensures r.Some? ==> HasKey(key, r.value) && HasKey(value, r.value)
  {
    if |key| == 0 then None
    else if HasKey(value, key[0].0) then Some(key[0].0)
    else
      var r := FirstShared(key[1..], value);
      assert forall i :: 1 <= i < |key| ==> key[i] == key[1..][i - 1];
      assert r.Some? ==> HasKey(key, r.value) by {
        if r.Some? {
          var i :| 0 <= i < |key[1..]| && key[1..][i].0 == r.value;
          assert key[i + 1].0 == r.value;
        }
      }
      r
  }

  /** `validate` given how Overwrite is read. */
  function ValidateWith(props: Props, lambdaRegion: string, overwrite: Props -> Result<bool, Error>): Result<Config, Error> {
    var region :- StrOr(props, "Region", lambdaRegion);
    var table :- RequireStr(props, "TableName");
    var key :- Require(props, "ItemKey");
    var value := GetOr(props, "ItemValue", Obj([]));
    var ow :- overwrite(props);
    if !key.Obj? then Err(AttributeError("keys"))
    else if !value.Obj? then Err(TypeError("ItemValue must be a mapping"))
    else
      match FirstShared(key.fields, value.fields)
      case Some(k) => Err(ValueError("Attribute " + k + " listed in both ItemKey and ItemValue"))
      case None => Ok(Config(region, table, key.fields, value.fields, ow))
  }

  function ReadOverwrite(props: Props): Result<bool, Error> {
    FlagOrFalse(props, "Overwrite")
  }

  /**
   * `validate`: Overwrite is parsed with `strtobool`, default 'false'; an
   * ItemKey that is not a mapping has no `keys()`.
   */
  function Validate(props: Props, lambdaRegion: string): (r: Result<Config, Error>)
    ensures r.Ok? ==> (r.value.overwrite <==> HasKey(props, "Overwrite") && StrToBool(GetValue(props, "Overwrite")) == Ok(true))
    ensures r.Ok? ==> Get(props, "ItemKey") == Some(Obj(r.value.key))
    ensures r.Ok? ==> !HasKey(props, "Region") ==> r.value.region == lambdaRegion
    ensures StrOr(props, "Region", lambdaRegion).Ok? && RequireStr(props, "TableName").Ok? &&
            HasKey(props, "ItemKey") && !GetValue(props, "ItemKey").Obj? && ReadOverwrite(props).Ok? ==>
            r == Err(AttributeError("keys"))
  {
    ValidateWith(props, lambdaRegion, ReadOverwrite)
  }

  /** Properties of the declared types, with a readable Overwrite flag. */
  predicate WellTyped(props: Props) {
    && (GetValue(props, "Region").Str? || !HasKey(props, "Region"))
    && GetValue(props, "TableName").Str?
    && GetValue(props, "ItemKey").Obj?
    && (GetValue(props, "ItemValue").Obj? || !HasKey(props, "ItemValue"))
    && FlagOrFalse(props, "Overwrite").Ok?
  }

  /** Validation fails with ValueError exactly when an attribute is both key and value. */
  lemma ValidateRejectsShared(props: Props, lambdaRegion: string)
    requires WellTyped(props)
    ensures Validate(props, lambdaRegion).Err? <==>
      exists k :: HasKey(GetValue(props, "ItemKey").fields, k) && HasKey(GetOr(props, "ItemValue", Obj([])).fields, k)
    ensures Validate(props, lambdaRegion).Err? ==> Validate(props, lambdaRegion).error.ValueError?
  {
    var key := GetValue(props, "ItemKey").fields;
    var value := GetOr(props, "ItemValue", Obj([])).fields;
    var r := FirstShared(key, value);
    if r.None? {
      forall k | HasKey(key, k) ensures !HasKey(value, k) {
        var i :| 0 <= i < |key| && key[i].0 == k;
      }
    }
  }

  // ---------------------------------------------------------------- construct_item

  /**
   * `do_convert` on one attribute value: a `BOOL` value becomes a boolean
   * that is true iff it was the string 'true'; otherwise the elements of an
   * `L` list or the entries of an `M` map are converted.
   */
  function Convert(v: Value): Value
    decreases v
  {
    match v
    case Obj(fields) =>
      if HasKey(fields, "BOOL") then Obj([("BOOL", Bool(Get(fields, "BOOL") == Some(Str("true"))))])
      else if HasKey(fields, "L") then
        var i := IndexOfKey(fields, "L");
        Obj(fields[i := ("L", ConvertInner(fields[i].1))])
      else if HasKey(fields, "M") then
        var i := IndexOfKey(fields, "M");
        Obj(fields[i := ("M", ConvertInner(fields[i].1))])
      else v
    case _ => v
  }

  /** Convert the elements of a list or the values of a map. */
  function ConvertInner(x: Value): Value
    decreases x
  {
    match x
    case List(items) => List(seq(|items|, j requires 0 <= j < |items| => Convert(items[j])))
    case Obj(m) => Obj(seq(|m|, j requires 0 <= j < |m| => (m[j].0, Convert(m[j].1))))
    case _ => x
  }

  /** The conversion applied to a whole item (`do_convert({'M': item})`). */
  function ConvertItem(item: Props): (r: Props)
    ensures Keys(r) == Keys(item)
    ensures forall j :: 0 <= j < |item| ==> r[j].1 == Convert(item[j].1)
  {
    seq(|item|, j requires 0 <= j < |item| => (item[j].0, Convert(item[j].1)))
  }

  /**
   * How CloudFormation hands a boolean to the function: the inverse of
   * `Convert` on well-formed attribute values.
   */
  function Stringify(v: Value): Value
    decreases v
  {
    match v
    case Obj(fields) =>
      if HasKey(fields, "BOOL") then
        Obj([("BOOL", Str(if Get(fields, "BOOL") == Some(Bool(true)) then "true" else "false"))])
      else if HasKey(fields, "L") then
        var i := IndexOfKey(fields, "L");
        Obj(fields[i := ("L", StringifyInner(fields[i].1))])
      else if HasKey(fields, "M") then
        var i := IndexOfKey(fields, "M");
        Obj(fields[i := ("M", StringifyInner(fields[i].1))])
      else v
    case _ => v
  }

  function StringifyInner(x: Value): Value
    decreases x
  {
    match x
    case List(items) => List(seq(|items|, j requires 0 <= j < |items| => Stringify(items[j])))
    case Obj(m) => Obj(seq(|m|, j requires 0 <= j < |m| => (m[j].0, Stringify(m[j].1))))
    case _ => x
  }

  /**
   * Every `BOOL` attribute value reachable the way `do_convert` walks is a
   * one-entry mapping whose value satisfies `ok`.
   */
  predicate BoolLeaves(v: Value, ok: Value -> bool)
    decreases v
  {
    match v
    case Obj(fields) =>
      if HasKey(fields, "BOOL") then |fields| == 1 && ok(fields[0].1)
      else if HasKey(fields, "L") then InnerBoolLeaves(fields[IndexOfKey(fields, "L")].1, ok)
      else if HasKey(fields, "M") then InnerBoolLeaves(fields[IndexOfKey(fields, "M")].1, ok)
      else true
    case _ => true
  }

  predicate InnerBoolLeaves(x: Value, ok: Value -> bool)
    decreases x
  {
    match x
    case List(items) => forall j :: 0 <= j < |items| ==> BoolLeaves(items[j], ok)
    case Obj(m) => forall j :: 0 <= j < |m| ==> BoolLeaves(m[j].1, ok)
    case _ => true
  }

  predicate IsBoolString(x: Value) {
    x == Str("true") || x == Str("false")
  }

  predicate IsBool(x: Value) {
    x.Bool?
  }

  /**
   * Converting values as CloudFormation sends them and rendering them back
   * gives the original: the conversion loses nothing.
   */
  lemma {:induction false} StringifyConvert(v: Value)
    requires BoolLeaves(v, IsBoolString)
    ensures Stringify(Convert(v)) == v
    ensures BoolLeaves(Convert(v), IsBool)
    decreases v
  {
    match v
    case Obj(fields) =>
      if HasKey(fields, "BOOL") {
        assert fields == [("BOOL", fields[0].1)];
      } else if HasKey(fields, "L") {
        ConvertAtKey(fields, "L");
      } else if HasKey(fields, "M") {
        ConvertAtKey(fields, "M");
      }
    case _ =>
  }

  lemma {:induction false} ConvertAtKey(fields: Props, name: string)
    requires !HasKey(fields, "BOOL") && HasKey(fields, name)
    requires name == "L" || (name == "M" && !HasKey(fields, "L"))
    requires InnerBoolLeaves(fields[IndexOfKey(fields, name)].1, IsBoolString)
    ensures Stringify(Convert(Obj(fields))) == Obj(fields)
    ensures BoolLeaves(Convert(Obj(fields)), IsBool)
    decreases Obj(fields), 0
  {
    var i := IndexOfKey(fields, name);
    var x := fields[i].1;
    var c := fields[i := (name, ConvertInner(x))];
    assert Convert(Obj(fields)) == Obj(c);
    SameKeysUpdate(fields, i, ConvertInner(x));
    assert IndexOfKey(c, name) == i by {
      IndexOfKeyUnique(c, name, i);
    }
    InnerStringifyConvert(x);
    assert c[i := (name, StringifyInner(ConvertInner(x)))] == fields;
  }

  lemma {:induction false} InnerStringifyConvert(x: Value)
    requires InnerBoolLeaves(x, IsBoolString)
    ensures StringifyInner(ConvertInner(x)) == x
    ensures InnerBoolLeaves(ConvertInner(x), IsBool)
    decreases x, 1
  {
    match x
    case List(items) =>
      forall j | 0 <= j < |items|
        ensures Stringify(Convert(items[j])) == items[j] && BoolLeaves(Convert(items[j]), IsBool)
      {
        StringifyConvert(items[j]);
      }
    case Obj(m) =>
      forall j | 0 <= j < |m|
        ensures Stringify(Convert(m[j].1)) == m[j].1 && BoolLeaves(Convert(m[j].1), IsBool)
      {
        StringifyConvert(m[j].1);
      }
    case _ =>
  }

  /** Replacing one entry's value keeps which keys are present. */
  lemma SameKeysUpdate(fields: Props, i: nat, x: Value)
    requires i < |fields|
    ensures forall k :: HasKey(fields[i := (fields[i].0, x)], k) <==> HasKey(fields, k)
  {
    var c := fields[i := (fields[i].0, x)];
    forall k ensures HasKey(c, k) <==> HasKey(fields, k) {
      if HasKey(c, k) {
        var j :| 0 <= j < |c| && c[j].0 == k;
        assert fields[j].0 == k;
      }
      if HasKey(fields, k) {
        var j :| 0 <= j < |fields| && fields[j].0 == k;
        assert c[j].0 == k;
      }
    }
  }

  lemma IndexOfKeyUnique(d: Props, k: string, i: nat)
    requires i < |d| && d[i].0 == k
    requires forall j :: 0 <= j < i ==> d[j].0 != k
    ensures HasKey(d, k) && IndexOfKey(d, k) == i
  {
    var r := IndexOfKey(d, k);
    assert r <= i && r >= i;
  }

  /** `construct_item`: the ItemKey attributes, then ItemValue's, converted. */
  function ConstructItem(cfg: Config): Props {
    ConvertItem(Dicts.Update(Dicts.Update([], cfg.key), cfg.value))
  }

  /**
   * With distinct attribute names, the item lists every key attribute and then
   * every value attribute, each converted.
   */
  lemma ConstructItemContents(cfg: Config)
    requires UniqueKeys(cfg.key) && UniqueKeys(cfg.value)
    requires forall k :: HasKey(cfg.key, k) ==> !HasKey(cfg.value, k)
    ensures |ConstructItem(cfg)| == |cfg.key| + |cfg.value|
    ensures forall j :: 0 <= j < |cfg.key| ==> ConstructItem(cfg)[j] == (cfg.key[j].0, Convert(cfg.key[j].1))
    ensures forall j :: 0 <= j < |cfg.value| ==>
      ConstructItem(cfg)[|cfg.key| + j] == (cfg.value[j].0, Convert(cfg.value[j].1))
  {
    MergedAttributes(cfg);
    var item := ConstructItem(cfg);
    var merged := cfg.key + cfg.value;
    assert |item| == |merged|;
    forall j | 0 <= j < |cfg.key|
      ensures item[j] == (cfg.key[j].0, Convert(cfg.key[j].1))
    {
      ConvertedAt(merged, j);
    }
    forall j | 0 <= j < |cfg.value|
      ensures item[|cfg.key| + j] == (cfg.value[j].0, Convert(cfg.value[j].1))
    {
      ConvertedAt(merged, |cfg.key| + j);
    }
  }

  /** With distinct names, the two updates just append the value attributes to the key ones. */
  lemma MergedAttributes(cfg: Config)
    requires UniqueKeys(cfg.key) && UniqueKeys(cfg.value)
    requires forall k :: HasKey(cfg.key, k) ==> !HasKey(cfg.value, k)
    ensures Dicts.Update(Dicts.Update([], cfg.key), cfg.value) == cfg.key + cfg.value
  {
    UpdateFresh([], cfg.key);
    assert [] + cfg.key == cfg.key;
    UpdateFresh(cfg.key, cfg.value);
  }

  /** Entry `j` of a converted item is entry `j` of the input, its value converted. */
  lemma ConvertedAt(item: Props, j: int)
    requires 0 <= j < |item|
    ensures ConvertItem(item)[j] == (item[j].0, Convert(item[j].1))
  {
    assert Keys(ConvertItem(item))[j] == Keys(item)[j];
  }

  // ---------------------------------------------------------------- physical id

  function AttributeName(e: (string, Value)): string {
    e.0
  }

  /** The key attributes in name order. */
  function SortedKey(key: Props): Props {
    Ordering.SortBy(key, AttributeName)
  }

  /**
   * `construct_physical_id`: region, table and the `name=value` pairs of the
   * sorted key, joined by ','; `render` is Python's `str()` of a value.
   */
  function PhysicalId(cfg: Config, render: Value -> string): string {
    var sorted := SortedKey(cfg.key);
    var pairs := seq(|sorted|, i requires 0 <= i < |sorted| => sorted[i].0 + "=" + render(sorted[i].1));
    Strings.Join([cfg.region, cfg.table, Strings.Join(pairs, ",")], ",")
  }

  /** The id does not depend on the order ItemKey lists its attributes in. */
  lemma PhysicalIdOrderIndependent(a: Config, b: Config, render: Value -> string)
    requires a.region == b.region && a.table == b.table
    requires multiset(a.key) == multiset(b.key)
    requires UniqueKeys(a.key)
    ensures PhysicalId(a, render) == PhysicalId(b, render)
  {
    Ordering.SortByOrderIndependent(a.key, b.key, AttributeName);
  }

  /** The first two ','-fields of the id give back the region and the table. */
  lemma PhysicalIdFields(cfg: Config, render: Value -> string)
    requires ',' !in cfg.region && ',' !in cfg.table
    ensures Strings.Field(PhysicalId(cfg, render), ',', 0) == Some(cfg.region)
    ensures Strings.Field(PhysicalId(cfg, render), ',', 1) == Some(cfg.table)
  {
    var sorted := SortedKey(cfg.key);
    var pairs := seq(|sorted|, i requires 0 <= i < |sorted| => sorted[i].0 + "=" + render(sorted[i].1));
    var rest := Strings.Join(pairs, ",");
    var id := PhysicalId(cfg, render);
    assert [cfg.region, cfg.table, rest][1..] == [cfg.table, rest];
    assert [cfg.table, rest][1..] == [rest];
    assert Strings.Join([cfg.table, rest], ",") == cfg.table + "," + rest;
    assert id == cfg.region + "," + Strings.Join([cfg.table, rest], ",");
    assert id == cfg.region + [','] + (cfg.table + [','] + rest);
    SplitAfter(cfg.region, ',', cfg.table + [','] + rest);
    SplitAfter(cfg.table, ',', rest);
  }

  /**
   * The id always holds a ',', so it never equals the NOT CREATED sentinel
   * whatever the region, table and key.
   */
  lemma PhysicalIdNotSentinel(cfg: Config, render: Value -> string)
    ensures ',' in PhysicalId(cfg, render)
    ensures PhysicalId(cfg, render) != NotCreated
  {
    var sorted := SortedKey(cfg.key);
    var pairs := seq(|sorted|, i requires 0 <= i < |sorted| => sorted[i].0 + "=" + render(sorted[i].1));
    var rest := Strings.Join(pairs, ",");
    var id := PhysicalId(cfg, render);
    assert [cfg.region, cfg.table, rest][1..] == [cfg.table, rest];
    assert Strings.Join([cfg.table, rest], ",") == cfg.table + "," + rest;
    assert id == cfg.region + "," + Strings.Join([cfg.table, rest], ",");
    assert id == cfg.region + [','] + (cfg.table + [','] + rest);
    assert id[|cfg.region|] == ',';
    assert ',' !in NotCreated;
  }

  lemma SplitAfter(a: string, c: char, b: string)
    requires c !in a
    ensures Strings.Split(a + [c] + b, c) == [a] + Strings.Split(b, c)
  {
    Strings.IndexOfAfterPrefix(a, c, b);
    var s := a + [c] + b;
    assert s[..|a|] == a;
    assert s[|a| + 1..] == b;
  }

  // ---------------------------------------------------------------- the table

  /** Where an item lives: its table and its key attributes in name order. */
  datatype Address = Address(region: string, table: string, key: Props)

  type Store = map<Address, Props>

  function AddressOf(cfg: Config): Address {
    Address(cfg.region, cfg.table, SortedKey(cfg.key))
  }

  /** The placeholder `#i` for the i-th key attribute. */
  function Placeholder(i: nat): string {
    "#" + Strings.NatToString(i)
  }

  /**
   * The existence condition sent unless Overwrite: one
   * `attribute_not_exists(#i)` per key attribute joined by " AND ", and the
   * placeholders mapped to the attribute names.
   */
  function ConditionParams(cfg: Config): Props {
    if cfg.overwrite then []
    else
      var names := Keys(cfg.key);
      var terms := seq(|names|, i requires 0 <= i < |names| => "attribute_not_exists(" + Placeholder(i) + ")");
      var placeholders := seq(|names|, i requires 0 <= i < |names| => (Placeholder(i), Str(names[i])));
      [("ConditionExpression", Str(Strings.Join(terms, " AND "))),
       ("ExpressionAttributeNames", Obj(placeholders))]
  }

  /**
   * Without Overwrite the placeholders are distinct and `#i` names the i-th
   * key attribute, so the condition covers exactly the key; with Overwrite
   * there is no condition.
   */
  lemma ConditionNamesKey(cfg: Config)
    ensures cfg.overwrite <==> ConditionParams(cfg) == []
    ensures !cfg.overwrite ==>
      var names := GetValue(ConditionParams(cfg), "ExpressionAttributeNames");
      && names.Obj?
      && UniqueKeys(names.fields)
      && |names.fields| == |cfg.key|
      && forall i :: 0 <= i < |cfg.key| ==> Get(names.fields, Placeholder(i)) == Some(Str(cfg.key[i].0))
  {
    if !cfg.overwrite {
      var p := ConditionParams(cfg);
      var names := p[1].1.fields;
      GetUnique(p, 1);
      forall i, j | 0 <= i < j < |names| ensures names[i].0 != names[j].0 {
        if names[i].0 == names[j].0 {
          assert Strings.NatToString(i) == names[i].0[1..];
          assert Strings.NatToString(j) == names[j].0[1..];
          Strings.NatToStringInjective(i, j);
        }
      }
      forall i | 0 <= i < |cfg.key| ensures Get(names, Placeholder(i)) == Some(Str(cfg.key[i].0)) {
        GetUnique(names, i);
      }
    }
  }

  /**
   * The conditional put as the table evaluates it: every key attribute must
   * be absent from the item already stored at the address.
   */
  predicate ConditionHolds(store: Store, cfg: Config) {
    var a := AddressOf(cfg);
    a !in store || forall i :: 0 <= i < |cfg.key| ==> !HasKey(store[a], cfg.key[i].0)
  }

  /**
   * `put_item`, conditional unless Overwrite. With no key attributes the
   * condition joins nothing, and the table refuses an empty
   * ConditionExpression as a ValidationException.
   */
  function PutItem(store: Store, cfg: Config, item: Props): (r: Result<Store, ApiError>)
    ensures r.Ok? <==> cfg.overwrite || (|cfg.key| > 0 && ConditionHolds(store, cfg))
    ensures r.Ok? ==> r.value == store[AddressOf(cfg) := item]
    ensures !cfg.overwrite && |cfg.key| == 0 ==> r == Err(EmptyCondition)
    ensures r.Err? && |cfg.key| > 0 ==> r.error == ConditionalCheckFailed
  {
    if !cfg.overwrite && |cfg.key| == 0 then Err(EmptyCondition)
    else if !cfg.overwrite && !ConditionHolds(store, cfg) then Err(ConditionalCheckFailed)
    else Ok(store[AddressOf(cfg) := item])
  }

  const EmptyCondition: ApiError := Other("ValidationException")

  /** Every stored item holds the key attributes of its address. */
  predicate StoreHoldsKeys(store: Store) {
    forall a :: a in store ==> forall i :: 0 <= i < |a.key| ==> HasKey(store[a], a.key[i].0)
  }

  // ---------------------------------------------------------------- lifecycle

  /**
   * `create`: the id is NOT CREATED until the put succeeds and the
   * constructed id afterwards.
   */
  function CreateWith(cfg: Config, item: Props, store: Store, render: Value -> string): (o: Outcome<Store>)
    ensures o.ret.Returned? <==> o.id == Some(PhysicalId(cfg, render))
    ensures o.ret.Raised? ==> o.id == Some(NotCreated) && o.after == store
    ensures o.ret.Returned? ==> o.after == store[AddressOf(cfg) := item] && o.ret.data == Some([])
    ensures o.failure.None?
  {
    PhysicalIdNotSentinel(cfg, render);
    match PutItem(store, cfg, item)
    case Err(e) => Raise(Api(e), Some(NotCreated), store)
    case Ok(s) => Return([], Some(PhysicalId(cfg, render)), s)
  }

  /**
   * `update`: a different constructed id means a new item, made exactly as
   * `create` makes it; otherwise an unconditional put under the same id.
   */
  function UpdateWith(cfg: Config, item: Props, id: string, store: Store, render: Value -> string): (o: Outcome<Store>)
    ensures id == PhysicalId(cfg, render) ==> o == Return([], Some(id), store[AddressOf(cfg) := item])
  {
    var newId := PhysicalId(cfg, render);
    if id != newId then CreateWith(cfg, item, store, render)
    else Return([], Some(newId), store[AddressOf(cfg) := item])
  }

  /** `delete`: nothing for NOT CREATED; otherwise remove the item, present or not. */
  function Delete(cfg: Config, id: string, store: Store): (o: Outcome<Store>)
    ensures o.ret == Returned(None) && o.id == Some(id)
    ensures id == NotCreated ==> o.after == store
    ensures id != NotCreated ==> AddressOf(cfg) !in o.after
    ensures forall a :: a != AddressOf(cfg) && a in store ==> a in o.after && o.after[a] == store[a]
  {
    if id == NotCreated then ReturnNone(Some(id), store)
    else ReturnNone(Some(id), store - {AddressOf(cfg)})
  }

  function Create(cfg: Config, store: Store, render: Value -> string): Outcome<Store> {
    CreateWith(cfg, ConstructItem(cfg), store, render)
  }

  function Update(cfg: Config, id: string, store: Store, render: Value -> string): Outcome<Store> {
    UpdateWith(cfg, ConstructItem(cfg), id, store, render)
  }

  /** `update` with a new constructed id is `create`, store and id included. */
  lemma UpdateReplaces(cfg: Config, id: string, store: Store, render: Value -> string)
    requires id != PhysicalId(cfg, render)
    ensures Update(cfg, id, store, render) == Create(cfg, store, render)
  {
  }

  /**
   * Creating without Overwrite fails with ConditionalCheckFailed exactly when
   * the item is already stored (and has a key), and then leaves the store and
   * the NOT CREATED id; with Overwrite it always succeeds.
   */
  lemma CreateConflict(cfg: Config, store: Store, render: Value -> string)
    requires StoreHoldsKeys(store)
    requires |cfg.key| > 0
    ensures var o := Create(cfg, store, render);
      o.ret.Raised? <==> !cfg.overwrite && AddressOf(cfg) in store
    ensures cfg.overwrite ==> Create(cfg, store, render).after[AddressOf(cfg)] == ConstructItem(cfg)
  {
    var a := AddressOf(cfg);
    if !cfg.overwrite && a in store {
      var sorted := SortedKey(cfg.key);
      assert |sorted| == |cfg.key|;
      assert sorted[0] in multiset(cfg.key);
      var j :| 0 <= j < |cfg.key| && cfg.key[j] == sorted[0];
      assert HasKey(store[a], a.key[0].0);
    }
  }

  /**
   * Creating into any store writes exactly this item at its address and
   * leaves every other item; a failed create can then be deleted without
   * touching the store.
   */
  lemma CreateThenDelete(cfg: Config, store: Store, render: Value -> string)
    requires PhysicalId(cfg, render) != NotCreated
    ensures var o := Create(cfg, store, render);
      o.ret.Returned? ==> Delete(cfg, o.id.value, o.after).after == store - {AddressOf(cfg)}
    ensures var o := Create(cfg, store, render);
      o.ret.Raised? ==> Delete(cfg, o.id.value, o.after).after == store
  {
  }

  /** A redelivered create with Overwrite leaves the same item and id as the first. */
  lemma CreateOverwriteIdempotent(cfg: Config, store: Store, render: Value -> string)
    requires cfg.overwrite
    ensures var o1 := Create(cfg, store, render);
      var o2 := Create(cfg, o1.after, render);
      o2.after == o1.after && o2.id == o1.id && o2.ret.Returned?
  {
  }

  /** A stored item's key attributes are present, so stores built here keep `StoreHoldsKeys`. */
  lemma CreateKeepsKeys(cfg: Config, store: Store, render: Value -> string)
    requires StoreHoldsKeys(store)
    requires UniqueKeys(cfg.key) && UniqueKeys(cfg.value)
    requires forall k :: HasKey(cfg.key, k) ==> !HasKey(cfg.value, k)
    ensures StoreHoldsKeys(Create(cfg, store, render).after)
  {
    var item := ConstructItem(cfg);
    var a := AddressOf(cfg);
    ConstructItemContents(cfg);
    forall i | 0 <= i < |a.key| ensures HasKey(item, a.key[i].0) {
      assert a.key[i] in multiset(cfg.key);
      var j :| 0 <= j < |cfg.key| && cfg.key[j] == a.key[i];
      assert item[j].0 == a.key[i].0;
    }
  }
}
