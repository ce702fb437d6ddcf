/**
 * The older DynamoDB Item provider. Its lifecycle is that of
 * `DynamoDbItem`; it differs in two places: Overwrite is taken by Python
 * truthiness rather than parsed, and the item is the plain union of ItemKey
 * and ItemValue, with no conversion of `BOOL` strings.
 */
module DynamoDbItemOld {
  import opened Wrappers
  import opened Dicts
  import opened Values
  import opened Lifecycle
  import Item = DynamoDbItem
  import Strings

  /** `props.get('Overwrite', False)`, used as a truth value. */
  function ReadOverwrite(props: Props): (r: Result<bool, Error>)
    ensures r.Ok?
    ensures r.value <==> HasKey(props, "Overwrite") && Truthy(GetValue(props, "Overwrite"))
  {
    Ok(Truthy(GetOr(props, "Overwrite", Bool(false))))
  }

  function Validate(props: Props, lambdaRegion: string): Result<Item.Config, Error> {
    Item.ValidateWith(props, lambdaRegion, ReadOverwrite)
  }

  /** `construct_item`: ItemKey's attributes updated with ItemValue's, unconverted. */
  function ConstructItem(cfg: Item.Config): Props {
    Dicts.Update(Dicts.Update([], cfg.key), cfg.value)
  }

  /** With distinct attribute names the item is ItemKey followed by ItemValue. */
  lemma ConstructItemContents(cfg: Item.Config)
    requires UniqueKeys(cfg.key) && UniqueKeys(cfg.value)
    requires forall k :: HasKey(cfg.key, k) ==> !HasKey(cfg.value, k)
    ensures ConstructItem(cfg) == cfg.key + cfg.value
  {
    UpdateFresh([], cfg.key);
    assert [] + cfg.key == cfg.key;
    UpdateFresh(cfg.key, cfg.value);
  }

  function Create(cfg: Item.Config, store: Item.Store, render: Value -> string): Outcome<Item.Store> {
    Item.CreateWith(cfg, ConstructItem(cfg), store, render)
  }

  function Update(cfg: Item.Config, id: string, store: Item.Store, render: Value -> string): Outcome<Item.Store> {
    Item.UpdateWith(cfg, ConstructItem(cfg), id, store, render)
  }

  /**
   * CloudFormation sends a template's `Overwrite: false` as the string
   * "false". That string is truthy, so this provider sends no existence
   * condition and overwrites an item that is already there; the current
   * provider parses it as false and refuses with ConditionalCheckFailed.
   */
  lemma OverwriteFalseOverwrites(props: Props, region: string, store: Item.Store, render: Value -> string)
    requires Get(props, "Overwrite") == Some(Str("false"))
    requires Validate(props, region).Ok?
    ensures var cfg := Validate(props, region).value;
      cfg.overwrite && Item.ConditionParams(cfg) == [] && Create(cfg, store, render).ret.Returned?
    ensures Item.Validate(props, region).Ok?
    ensures var cfg := Item.Validate(props, region).value;
      !cfg.overwrite && Item.ConditionParams(cfg) != [] &&
      (Item.StoreHoldsKeys(store) && Item.AddressOf(cfg) in store && |cfg.key| > 0 ==>
        Item.Create(cfg, store, render).ret.Raised?)
  {
    CurrentRefusesFalse(props, region, store, render);
  }

  /** The current provider reads the string "false" as false and sends the existence condition. */
  lemma CurrentRefusesFalse(props: Props, region: string, store: Item.Store, render: Value -> string)
    requires Get(props, "Overwrite") == Some(Str("false"))
    requires Validate(props, region).Ok?
    ensures Item.Validate(props, region).Ok?
    ensures var cfg := Item.Validate(props, region).value;
      !cfg.overwrite && Item.ConditionParams(cfg) != [] &&
      (Item.StoreHoldsKeys(store) && Item.AddressOf(cfg) in store && |cfg.key| > 0 ==>
        Item.Create(cfg, store, render).ret.Raised?)
  {
    ReadsFalse(props);
    SameChecks(props, region, ReadOverwrite, Item.ReadOverwrite);
    var cfg := Item.Validate(props, region).value;
    if Item.StoreHoldsKeys(store) && |cfg.key| > 0 {
      Item.CreateConflict(cfg, store, render);
    }
  }

  lemma ReadsFalse(props: Props)
    requires Get(props, "Overwrite") == Some(Str("false"))
    ensures Item.ReadOverwrite(props) == Ok(false)
  {
    assert Strings.Lower("false") == "false";
  }

  /** The two providers check the same things; only the Overwrite flag they read differs. */
  lemma SameChecks(props: Props, region: string, f: Props -> Result<bool, Error>, g: Props -> Result<bool, Error>)
    requires f(props).Ok? && g(props).Ok?
    requires Item.ValidateWith(props, region, f).Ok?
    ensures Item.ValidateWith(props, region, g) == Ok(Item.ValidateWith(props, region, f).value.(overwrite := g(props).value))
  {
  }

  /**
   * An ItemValue attribute given as `{'BOOL': 'true'}`, as in the sibling unit
   * test, is stored by this provider as the string 'true', where the test
   * expects the boolean true that the current provider produces.
   */
  lemma BoolLeftAsString(cfg: Item.Config, j: nat)
    requires UniqueKeys(cfg.key) && UniqueKeys(cfg.value)
    requires forall k :: HasKey(cfg.key, k) ==> !HasKey(cfg.value, k)
    requires j < |cfg.value| && cfg.value[j].1 == Obj([("BOOL", Str("true"))])
    ensures |ConstructItem(cfg)| == |Item.ConstructItem(cfg)| == |cfg.key| + |cfg.value|
    ensures ConstructItem(cfg)[|cfg.key| + j] == (cfg.value[j].0, Obj([("BOOL", Str("true"))]))
    ensures Item.ConstructItem(cfg)[|cfg.key| + j] == (cfg.value[j].0, Obj([("BOOL", Bool(true))]))
  {
    ConvertTrueString();
    var b := cfg.value[j].1;
    assert Item.Convert(b) == Obj([("BOOL", Bool(true))]);
    ConstructItemContents(cfg);
    Item.ConstructItemContents(cfg);
  }

  lemma ConvertTrueString()
    ensures Item.Convert(Obj([("BOOL", Str("true"))])) == Obj([("BOOL", Bool(true))])
  {
    var f := [("BOOL", Str("true"))];
    assert f[0].0 == "BOOL";
    assert Get(f, "BOOL") == Some(Str("true"));
  }
}
