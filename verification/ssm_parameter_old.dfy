/**
 * The older SSM Parameter provider. It has no ValueFrom and no Encoding,
 * it can return the value itself and a ValueHash among the attributes, and
 * on update a Name change is handled first and only a Description, Type or
 * KeyId change causes a put.
 */
module SsmParameterOld {
  import opened Wrappers
  import opened Dicts
  import opened Values
  import opened Lifecycle
  import opened SsmStore
  import SsmTags
  import Strings
  import Random
  import P = SsmParameter

  /** MD5 of a text's UTF-8 bytes as hex digits; only its being a function of the text matters. */
  type Digest = string -> string

  /**
   * What `validate` leaves on the resource: the fields the put needs (never
   * encoded) and the two attribute switches.
   */
  datatype Config = Config(base: P.Config, returnValue: bool, returnValueHash: bool)

  /**
   * `validate`: as the current provider's, without ValueFrom and Encoding;
   * ReturnValue and ReturnValueHash are `strtobool` of the property, or
   * false when it is absent.
   */
  function Validate(props: Props, uniqueId: string, draw: Random.Draw): (r: Result<Config, Error>)
    ensures r.Ok? <==>
      (GetValue(props, "Name").Null? || GetValue(props, "Name").Str?) &&
      (HasKey(props, "RandomValue") ==> P.GenerateRandom(GetValue(props, "RandomValue"), draw).Ok?) &&
      FlagOrFalse(props, "ReturnValue").Ok? && FlagOrFalse(props, "ReturnValueHash").Ok?
    ensures r.Ok? ==> (r.value.base.random <==> HasKey(props, "RandomValue"))
    ensures r.Ok? && HasKey(props, "RandomValue") ==>
      r.value.base.value == Str(P.GenerateRandom(GetValue(props, "RandomValue"), draw).value)
    ensures r.Ok? && !HasKey(props, "RandomValue") ==> r.value.base.value == GetOr(props, "Value", Str(""))
    ensures r.Ok? ==> r.value.base.encoding == Str("none")
    ensures r.Ok? ==> (r.value.returnValue <==> HasKey(props, "ReturnValue") && StrToBool(GetValue(props, "ReturnValue")) == Ok(true))
    ensures r.Ok? ==> (r.value.returnValueHash <==>
                       HasKey(props, "ReturnValueHash") && StrToBool(GetValue(props, "ReturnValueHash")) == Ok(true))
  {
    var nameV := GetValue(props, "Name");
    if !(nameV.Null? || nameV.Str?) then Err(TypeError("Name"))
    else
      var generated :- if HasKey(props, "RandomValue") then P.GenerateRandom(GetValue(props, "RandomValue"), draw)
                       else Ok("");
      var value := if HasKey(props, "RandomValue") then Str(generated) else GetOr(props, "Value", Str(""));
      var returnValue :- FlagOrFalse(props, "ReturnValue");
      var returnValueHash :- FlagOrFalse(props, "ReturnValueHash");
      Ok(Config(P.Config(if nameV.Str? then nameV.s else uniqueId,
                         GetOr(props, "Description", Str("")), GetOr(props, "Type", Str("String")),
                         value, HasKey(props, "RandomValue"), Str("none"), GetValue(props, "KeyId"),
                         GetOr(props, "Tags", List([]))),
                returnValue, returnValueHash))
  }

  /**
   * CloudFormation hands a template's boolean `true` to the provider as a
   * property value; a value that is not a string has no spelling for
   * `strtobool` to read, so validation fails.
   */
  lemma NonStringFlagRejected(props: Props, uniqueId: string, draw: Random.Draw)
    requires HasKey(props, "ReturnValue") && !GetValue(props, "ReturnValue").Str?
    ensures Validate(props, uniqueId, draw).Err?
  {
  }

  /** Both switches are off unless the template names them. */
  lemma FlagsDefaultOff(props: Props, uniqueId: string, draw: Random.Draw)
    requires !HasKey(props, "ReturnValue") && !HasKey(props, "ReturnValueHash")
    requires Validate(props, uniqueId, draw).Ok?
    ensures !Validate(props, uniqueId, draw).value.returnValue && !Validate(props, uniqueId, draw).value.returnValueHash
  {
  }

  /**
   * The ValueHash attribute: for a random value the current time, since
   * such an update is refused anyway; otherwise the MD5 of the value.
   */
  function ValueHash(cfg: Config, clock: string, md5: Digest): (r: Result<string, Error>)
    ensures cfg.base.random ==> r == Ok(clock)
    ensures !cfg.base.random ==> (r.Ok? <==> cfg.base.value.Str?)
    ensures !cfg.base.random && r.Ok? ==> r.value == md5(cfg.base.value.s)
  {
    if cfg.base.random then Ok(clock)
    else if cfg.base.value.Str? then Ok(md5(cfg.base.value.s))
    else Err(AttributeError("encode"))
  }

  /**
   * `attributes`: always Arn; Value when ReturnValue is on; ValueHash when
   * ReturnValueHash is on. Fails only where the ARN of the function has no
   * account field or the hash cannot be computed.
   */
  function Attributes(cfg: Config, env: Env, clock: string, md5: Digest): (r: Result<Props, Error>)
    ensures r.Ok? <==> |Strings.Split(env.functionArn, ':')| >= 5 && (cfg.returnValueHash ==> ValueHash(cfg, clock, md5).Ok?)
    ensures r.Err? && |Strings.Split(env.functionArn, ':')| < 5 ==> r.error == IndexError
  {
    match Strings.Field(env.functionArn, ':', 4)
    case None => Err(IndexError)
    case Some(account) =>
      var withArn := Put([], "Arn", Str(P.ParameterArn(env.region, account, cfg.base.name)));
      var withValue := if cfg.returnValue then Put(withArn, "Value", cfg.base.value) else withArn;
      if !cfg.returnValueHash then Ok(withValue)
      else
        match ValueHash(cfg, clock, md5)
        case Err(e) => Err(e)
        case Ok(h) => Ok(Put(withValue, "ValueHash", Str(h)))
  }

  /** What the attributes hold: the ARN, and the value and its hash exactly when asked for. */
  lemma AttributesContents(cfg: Config, env: Env, clock: string, md5: Digest)
    requires Attributes(cfg, env, clock, md5).Ok?
    ensures var a := Attributes(cfg, env, clock, md5).value;
      Get(a, "Arn") == Some(Str(P.ParameterArn(env.region, Strings.Split(env.functionArn, ':')[4], cfg.base.name))) &&
      (HasKey(a, "Value") <==> cfg.returnValue) &&
      (cfg.returnValue ==> Get(a, "Value") == Some(cfg.base.value)) &&
      (HasKey(a, "ValueHash") <==> cfg.returnValueHash) &&
      (cfg.returnValueHash ==> Get(a, "ValueHash") == Some(Str(ValueHash(cfg, clock, md5).value)))
  {
    var account := Strings.Split(env.functionArn, ':')[4];
    var arn := Str(P.ParameterArn(env.region, account, cfg.base.name));
    var withArn := Put([], "Arn", arn);
    PutGet([], "Arn", arn, "Arn");
    PutGet([], "Arn", arn, "Value");
    PutGet([], "Arn", arn, "ValueHash");
    var withValue := if cfg.returnValue then Put(withArn, "Value", cfg.base.value) else withArn;
    PutGet(withArn, "Value", cfg.base.value, "Arn");
    PutGet(withArn, "Value", cfg.base.value, "Value");
    PutGet(withArn, "Value", cfg.base.value, "ValueHash");
    if cfg.returnValueHash {
      var h := Str(ValueHash(cfg, clock, md5).value);
      PutGet(withValue, "ValueHash", h, "Arn");
      PutGet(withValue, "ValueHash", h, "Value");
      PutGet(withValue, "ValueHash", h, "ValueHash");
    }
  }

  /** The environment the attributes need: the region and the invoked function's ARN. */
  type Env = P.Env

  /**
   * For a value that is not random the attributes do not depend on the
   * time they are computed at: an unchanged value reports an unchanged hash.
   */
  lemma HashIgnoresClock(cfg: Config, env: Env, c1: string, c2: string, md5: Digest)
    requires !cfg.base.random
    ensures Attributes(cfg, env, c1, md5) == Attributes(cfg, env, c2, md5)
  {
  }

  // ---------------------------------------------------------------- create, update

  function PutOp(cfg: Config, overwrite: bool, id0: Option<string>, p: Params, env: Env, clock: string, md5: Digest): Outcome<Params> {
    P.PutThen(P.PutRequest(cfg.base, overwrite), cfg.base.name, cfg.base.tags, id0, p, Attributes(cfg, env, clock, md5))
  }

  function Create(cfg: Config, p: Params, env: Env, clock: string, md5: Digest): Outcome<Params> {
    PutOp(cfg, false, None, p, env, clock, md5)
  }

  /** Description, Type or KeyId changed: the only changes this provider puts for. */
  predicate NeedPut(props: Props, oldProps: Props, changed: Changed) {
    changed(props, oldProps, "Description") || changed(props, oldProps, "Type") || changed(props, oldProps, "KeyId")
  }

  /**
   * `update`: a Name change is a create of the new name; otherwise a
   * Description, Type or KeyId change is refused for a random value whose
   * RandomValue did not change, and else put with overwrite; Tags are
   * resynchronised if they changed.
   */
  function Update(cfg: Config, props: Props, oldProps: Props, id: string, changed: Changed, p: Params,
                  env: Env, clock: string, md5: Digest): (o: Outcome<Params>)
    ensures o.id == Some(id) || o.id == Some(cfg.base.name)
  {
    if changed(props, oldProps, "Name") then PutOp(cfg, false, Some(id), p, env, clock, md5)
    else if cfg.base.random && !changed(props, oldProps, "RandomValue") && NeedPut(props, oldProps, changed) then
      Raise(RuntimeError("Would need to overwrite previous RandomValue"), Some(id), p)
    else
      var put := if NeedPut(props, oldProps, changed) then PutOp(cfg, true, Some(id), p, env, clock, md5)
                 else ReturnNone(Some(id), p);
      if put.ret.Raised? then put
      else
        var id1 := put.id.value;
        var tagged := P.RetagIf(changed(props, oldProps, "Tags"), id1, cfg.base.tags, oldProps, put.after);
        if tagged.error.Some? then Raise(tagged.error.value, Some(id1), tagged.after)
        else
          match Attributes(cfg, env, clock, md5)
          case Err(e) => Raise(e, Some(id1), tagged.after)
          case Ok(attrs) => Return(attrs, Some(id1), tagged.after)
  }

  /**
   * A Name change is a create before anything else is checked, so even a
   * random value whose RandomValue is unchanged is not refused.
   */
  lemma UpdateRenameFirst(cfg: Config, props: Props, oldProps: Props, id: string, changed: Changed, p: Params,
                          env: Env, clock: string, md5: Digest)
    requires changed(props, oldProps, "Name")
    ensures Update(cfg, props, oldProps, id, changed, p, env, clock, md5) == PutOp(cfg, false, Some(id), p, env, clock, md5)
  {
  }

  /**
   * A random value whose RandomValue is unchanged is refused a Description,
   * Type or KeyId change, and nothing is sent.
   */
  lemma UpdateRefusesRandomRegen(cfg: Config, props: Props, oldProps: Props, id: string, changed: Changed, p: Params,
                                 env: Env, clock: string, md5: Digest)
    requires !changed(props, oldProps, "Name") && cfg.base.random && !changed(props, oldProps, "RandomValue")
    requires NeedPut(props, oldProps, changed)
    ensures var o := Update(cfg, props, oldProps, id, changed, p, env, clock, md5);
      o.ret.Raised? && o.ret.err.RuntimeError? && o.after == p && o.id == Some(id)
  {
  }

  /**
   * A change of Value alone (or of anything but Name, Description, Type,
   * KeyId and Tags) sends nothing: the stored parameter keeps its old value.
   */
  lemma UpdateValueAloneSendsNothing(cfg: Config, props: Props, oldProps: Props, id: string, changed: Changed, p: Params,
                                     env: Env, clock: string, md5: Digest)
    requires !changed(props, oldProps, "Name") && !NeedPut(props, oldProps, changed) && !changed(props, oldProps, "Tags")
    ensures var o := Update(cfg, props, oldProps, id, changed, p, env, clock, md5);
      o.after == p && o.id == Some(id)
  {
  }

  /** Creating under a fresh name stores exactly the configured parameter and tags. */
  lemma CreateStores(cfg: Config, p: Params, env: Env, clock: string, md5: Digest, nd: Dict<string>)
    requires P.WellTyped(cfg.base) && cfg.base.name !in p
    requires TagList(cfg.base.tags) == Some(nd) && UniqueKeys(nd)
    requires Attributes(cfg, env, clock, md5).Ok?
    ensures var o := Create(cfg, p, env, clock, md5);
      o.ret.Returned? && o.id == Some(cfg.base.name) && o.after == p[cfg.base.name := P.Stored(cfg.base, nd)]
  {
    P.PutWritesFresh(cfg.base, false, p);
    P.TagsFresh(cfg.base, p, nd);
    P.PutThenSucceeds(P.PutRequest(cfg.base, false), cfg.base.name, cfg.base.tags, None, p, Attributes(cfg, env, clock, md5),
                      p[cfg.base.name := P.Stored(cfg.base, [])], p[cfg.base.name := P.Stored(cfg.base, nd)]);
  }
}
