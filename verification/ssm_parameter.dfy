/**
 * The SSM Parameter provider: a parameter whose value is given, copied from
 * another parameter or secret, or generated at random, optionally
 * Base64-encoded, with its tags kept in step with the template. The
 * parameter's name is its physical id.
 */
module SsmParameter {
  import opened Wrappers
  import opened Dicts
  import opened Values
  import opened Lifecycle
  import opened SsmStore
  import SsmTags
  import Strings
  import Base64
  import Random

  /** The Lambda's environment: `AWS_REGION` and the invoked function's ARN. */
  datatype Env = Env(region: string, functionArn: string)

  /** `json.loads`, which raises on text that is not JSON. */
  type Loads = string -> Result<Value, Error>

  const DefaultLength: int := 22
  const DefaultCharset: string := "ABCDEFGHIJKLMNOPQRSTUVWXYZabcdefghijklmnopqrstuvwxyz0123456789"

  /** What `validate` leaves on the resource for the other operations. */
  datatype Config = Config(name: string, description: Value, kind: Value, value: Value, random: bool,
                           encoding: Value, keyId: Value, tags: Value)

  // ---------------------------------------------------------------- random values

  /** Python's `int(v)` on a property value. */
  function PyInt(v: Value): (r: Result<int, Error>)
    ensures v.Int? ==> r == Ok(v.i)
    ensures v.Str? ==> (r.Ok? <==> Strings.ParseInt(v.s).Some?)
    ensures (v.Null? || v.List? || v.Obj?) ==> r.Err? && r.error.TypeError?
  {
    match v
    case Int(i) => Ok(i)
    case Bool(b) => Ok(if b then 1 else 0)
    case Str(s) =>
      var n := Strings.ParseInt(s);
      if n.Some? then Ok(n.value) else Err(ValueError("invalid literal for int()"))
    case _ => Err(TypeError("int() argument must be a string or a number"))
  }

  /** `''.join(items)`: every item must be a string. */
  function JoinStrs(items: seq<Value>): (r: Result<string, Error>)
    ensures r.Ok? <==> forall i :: 0 <= i < |items| ==> items[i].Str?
    ensures r.Err? ==> r.error.TypeError?
  {
    if items == [] then Ok("")
    else if !items[0].Str? then Err(TypeError("sequence item: expected str instance"))
    else
      match JoinStrs(items[1..])
      case Err(e) =>
        assert exists i :: 1 <= i < |items| && !items[i].Str? by {
          var j :| 0 <= j < |items[1..]| && !items[1..][j].Str?;
          assert items[j + 1] == items[1..][j];
        }
        Err(e)
      case Ok(rest) =>
        assert forall i :: 1 <= i < |items| ==> items[i] == items[1..][i - 1];
        Ok(items[0].s + rest)
  }

  /** Joining one-character strings spells out the characters. */
  lemma {:induction false} JoinSingles(items: seq<Value>, t: string)
    requires |items| == |t| && forall i :: 0 <= i < |items| ==> items[i] == Str([t[i]])
    ensures JoinStrs(items) == Ok(t)
  {
    if items != [] {
      JoinSingles(items[1..], t[1..]);
      assert [t[0]] + t[1..] == t;
    }
  }

  /** The charset a spec names, or the default. */
  function Charset(specs: Value): Value
    requires specs.Obj?
  {
    GetOr(specs.fields, "charset", Str(DefaultCharset))
  }

  /** The length a spec names, or the default, as `int()` reads it. */
  function Length(specs: Value): Result<int, Error>
    requires specs.Obj?
  {
    PyInt(GetOr(specs.fields, "length", Int(DefaultLength)))
  }

  /**
   * `generate_random(specs)`: `length` picks (default 22) from `charset`
   * (default upper- and lower-case letters and digits), joined. A length of
   * zero or less gives the empty string whatever the charset, since nothing
   * is picked. Otherwise `random.choice` needs a non-empty sequence: a
   * string yields its characters, a list its items, which must then all be
   * strings for the join; a mapping is indexed by position and has no such
   * key, and any other value has no length.
   */
  function GenerateRandom(specs: Value, draw: Random.Draw): (r: Result<string, Error>)
    ensures !specs.Obj? ==> r.Err? && r.error.AttributeError?
    ensures specs.Obj? && !HasKey(specs.fields, "length") && !HasKey(specs.fields, "charset") ==>
      r.Ok? && |r.value| == DefaultLength && forall i :: 0 <= i < |r.value| ==> r.value[i] in DefaultCharset
    ensures r.Ok? ==> specs.Obj? && Length(specs).Ok?
    ensures specs.Obj? && Length(specs).Ok? && Length(specs).value <= 0 ==> r == Ok("")
    ensures r.Ok? && Charset(specs).Str? ==> var n := Length(specs).value;
      |r.value| == (if n < 0 then 0 else n) && forall i :: 0 <= i < |r.value| ==> r.value[i] in Charset(specs).s
    ensures r.Ok? && r.value != "" ==> Charset(specs).Str? || Charset(specs).List?
    ensures (specs.Obj? && Charset(specs) == Str("") && Length(specs).Ok? && Length(specs).value > 0) ==> r == Err(IndexError)
    ensures (specs.Obj? && Charset(specs).List? && Length(specs).Ok? && Length(specs).value > 0) ==>
      (r.Ok? <==> |Charset(specs).items| > 0 &&
                  forall i :: 0 <= i < Length(specs).value ==> Random.Choices(Length(specs).value, Charset(specs).items, draw)[i].Str?)
  {
    if !specs.Obj? then Err(AttributeError("get"))
    else
      var length :- Length(specs);
      var n: nat := if length < 0 then 0 else length;
      if n == 0 then Ok("")
      else
        match Charset(specs)
        case Str(s) => if |s| == 0 then Err(IndexError) else Ok(Random.RandomString(n, s, draw))
        case List(items) => if |items| == 0 then Err(IndexError) else JoinStrs(Random.Choices(n, items, draw))
        case Obj(fields) => if |fields| == 0 then Err(IndexError) else Err(KeyError("charset position"))
        case _ => Err(TypeError("object has no len()"))
  }

  /**
   * A charset given as a list of one-character strings draws exactly the
   * string the same characters spell.
   */
  lemma ListCharsetAsString(specs: Value, s: string, draw: Random.Draw)
    requires specs.Obj? && |s| > 0
    requires Charset(specs) == List(seq(|s|, i requires 0 <= i < |s| => Str([s[i]])))
    ensures GenerateRandom(specs, draw) ==
      GenerateRandom(Obj(Dicts.Put(specs.fields, "charset", Str(s))), draw)
  {
    var specs' := Obj(Dicts.Put(specs.fields, "charset", Str(s)));
    Dicts.PutGet(specs.fields, "charset", Str(s), "charset");
    Dicts.PutGet(specs.fields, "charset", Str(s), "length");
    assert Charset(specs') == Str(s);
    assert Length(specs') == Length(specs);
    var length := Length(specs);
    if length.Ok? && length.value > 0 {
      var n: nat := length.value;
      var items := Charset(specs).items;
      var picks := Random.Choices(n, items, draw);
      forall i | 0 <= i < n
        ensures picks[i] == Str([Random.RandomString(n, s, draw)[i]])
      {
      }
      JoinSingles(picks, Random.RandomString(n, s, draw));
    }
  }

  // ---------------------------------------------------------------- value sources

  /** `ssm.get_parameter(Name=value_from, WithDecryption=True)` */
  function GetParameterCall(valueFrom: string): ApiCall {
    ApiCall("get_parameter", [("Name", Str(valueFrom)), ("WithDecryption", Bool(true))])
  }

  /** `{k: v for k, v in zip(names, fields) if v}` */
  function ZipNonEmpty(names: seq<string>, fields: seq<string>): (r: Props)
    ensures |r| <= |names| && |r| <= |fields|
    decreases |names|
  {
    if |names| == 0 || |fields| == 0 then []
    else (if fields[0] != "" then [(names[0], Str(fields[0]))] else []) + ZipNonEmpty(names[1..], fields[1..])
  }

  /**
   * With distinct names, the `i`-th name is sent exactly when the `i`-th field
   * exists and is not empty, carrying that field; names past the last field
   * are not sent.
   */
  lemma {:induction false} ZipNonEmptyGet(names: seq<string>, fields: seq<string>, i: nat)
    requires forall a, b :: 0 <= a < b < |names| ==> names[a] != names[b]
    requires i < |names|
    ensures Get(ZipNonEmpty(names, fields), names[i]) ==
      if i < |fields| && fields[i] != "" then Some(Str(fields[i])) else None
    decreases |names|
  {
    if |fields| > 0 {
      var head: Props := if fields[0] != "" then [(names[0], Str(fields[0]))] else [];
      var tail := ZipNonEmpty(names[1..], fields[1..]);
      assert ZipNonEmpty(names, fields) == head + tail;
      if i > 0 {
        ZipNonEmptyGet(names[1..], fields[1..], i - 1);
        assert names[1..][i - 1] == names[i];
        if head != [] {
          GetHead(head + tail, names[i]);
          assert (head + tail)[1..] == tail;
        } else {
          assert head + tail == tail;
        }
      } else if head != [] {
        GetHead(head + tail, names[0]);
      } else {
        assert head + tail == tail;
        ZipNonEmptyAbsent(names[1..], fields[1..], names[0]);
      }
    }
  }

  lemma {:induction false} ZipNonEmptyAbsent(names: seq<string>, fields: seq<string>, k: string)
    requires k !in names
    ensures Get(ZipNonEmpty(names, fields), k) == None
    decreases |names|
  {
    if |names| > 0 && |fields| > 0 {
      ZipNonEmptyAbsent(names[1..], fields[1..], k);
      var head: Props := if fields[0] != "" then [(names[0], Str(fields[0]))] else [];
      var tail := ZipNonEmpty(names[1..], fields[1..]);
      if head != [] {
        GetHead(head + tail, k);
        assert (head + tail)[1..] == tail;
      } else {
        assert head + tail == tail;
      }
    }
  }

  /**
   * The optional version arguments of `get_secret_value`, read from the
   * fields after the JSON key, in the order the code zips them: field 8 as
   * VersionId and field 9 as VersionStage.
   */
  function SecretVersionArgsAsWritten(extra: seq<string>): Props {
    ZipNonEmpty(["VersionId", "VersionStage"], extra)
  }

  /**
   * The same arguments in the order of the layout the code documents and of
   * CloudFormation's secretsmanager dynamic references
   * (`...:json-key:version-stage:version-id`).
   */
  function SecretVersionArgs(extra: seq<string>): Props {
    ZipNonEmpty(["VersionStage", "VersionId"], extra)
  }

  /**
   * A reference naming only a version stage, as the documented layout
   * writes it, reaches the service as a version id; the corrected reading
   * sends it as the stage.
   */
  lemma VersionStageSentAsVersionId(parts: seq<string>)
    requires |parts| == 9 && parts[8] != ""
    ensures Get(SecretVersionArgsAsWritten(parts[8..]), "VersionId") == Some(Str(parts[8]))
    ensures Get(SecretVersionArgsAsWritten(parts[8..]), "VersionStage") == None
    ensures Get(SecretVersionArgs(parts[8..]), "VersionStage") == Some(Str(parts[8]))
    ensures Get(SecretVersionArgs(parts[8..]), "VersionId") == None
  {
    var extra := parts[8..];
    assert |extra| == 1 && extra[0] == parts[8];
    ZipNonEmptyGet(["VersionId", "VersionStage"], extra, 0);
    ZipNonEmptyGet(["VersionId", "VersionStage"], extra, 1);
    ZipNonEmptyGet(["VersionStage", "VersionId"], extra, 0);
    ZipNonEmptyGet(["VersionStage", "VersionId"], extra, 1);
  }

  /** Each version field of the reference reaches the argument it documents, when not empty. */
  lemma SecretVersionArgsDocumented(extra: seq<string>)
    ensures Get(SecretVersionArgs(extra), "VersionStage") ==
      if |extra| > 0 && extra[0] != "" then Some(Str(extra[0])) else None
    ensures Get(SecretVersionArgs(extra), "VersionId") ==
      if |extra| > 1 && extra[1] != "" then Some(Str(extra[1])) else None
  {
    ZipNonEmptyGet(["VersionStage", "VersionId"], extra, 0);
    ZipNonEmptyGet(["VersionStage", "VersionId"], extra, 1);
  }

  /** The secret's ARN: the first seven ':'-fields of the reference. */
  function SecretId(parts: seq<string>): string
    requires |parts| >= 7
  {
    Strings.Join(parts[..7], ":")
  }

  /** The SecretId sent has exactly the reference's first seven fields, without the JSON key. */
  lemma SecretIdFields(s: string)
    requires |Strings.Split(s, ':')| >= 8
    ensures Strings.Split(SecretId(Strings.Split(s, ':')), ':') == Strings.Split(s, ':')[..7]
  {
    var parts := Strings.Split(s, ':');
    Strings.SplitJoin(parts[..7], ':');
  }

  /** `secretsmanager.get_secret_value(SecretId=..., **extras)` */
  function GetSecretCall(parts: seq<string>): ApiCall
    requires |parts| >= 8
  {
    ApiCall("get_secret_value", [("SecretId", Str(SecretId(parts)))] + SecretVersionArgs(parts[8..]))
  }

  /**
   * `fetch_value(value_from)`: the service is the third ':'-field. For
   * 'ssm' the whole reference names the parameter, read with decryption;
   * for 'secretsmanager' the eighth field is the key looked up in the
   * secret's JSON text; anything else is a ValueError. Not-found errors of
   * either service become ValueError; other service errors propagate.
   */
  function FetchValue(valueFrom: Value, api: Api, loads: Loads): (r: Result<Value, Error>)
    ensures !valueFrom.Str? ==> r.Err? && r.error.AttributeError?
    ensures valueFrom.Str? && Strings.Field(valueFrom.s, ':', 2).None? ==> r == Err(IndexError)
    ensures (valueFrom.Str? && Strings.Field(valueFrom.s, ':', 2).Some? &&
             Strings.Field(valueFrom.s, ':', 2).value !in ["ssm", "secretsmanager"]) ==> r.Err? && r.error.ValueError?
    ensures valueFrom.Str? && Strings.Field(valueFrom.s, ':', 2) == Some("ssm") ==>
      (api(GetParameterCall(valueFrom.s)) == Err(ParameterNotFound) ==> r.Err? && r.error.ValueError?) &&
      (r.Ok? ==> api(GetParameterCall(valueFrom.s)).Ok? &&
                 Index(api(GetParameterCall(valueFrom.s)).value, "Parameter").Ok? &&
                 Index(Index(api(GetParameterCall(valueFrom.s)).value, "Parameter").value, "Value") == r)
    ensures valueFrom.Str? && Strings.Field(valueFrom.s, ':', 2) == Some("secretsmanager") ==>
      var parts := Strings.Split(valueFrom.s, ':');
      (|parts| < 8 ==> r == Err(IndexError)) &&
      (|parts| >= 8 && api(GetSecretCall(parts)) == Err(ResourceNotFound) ==> r.Err? && r.error.ValueError?) &&
      (r.Ok? ==> |parts| >= 8 && api(GetSecretCall(parts)).Ok?)
  {
    match valueFrom
    case Str(s) =>
      var parts := Strings.Split(s, ':');
      if |parts| < 3 then Err(IndexError)
      else if parts[2] == "ssm" then
        match api(GetParameterCall(s))
        case Err(ParameterNotFound) => Err(ValueError("Parameter not found"))
        case Err(e) => Err(Api(e))
        case Ok(resp) =>
          var param :- Index(resp, "Parameter");
          Index(param, "Value")
      else if parts[2] == "secretsmanager" then
        if |parts| < 8 then Err(IndexError)
        else
          match api(GetSecretCall(parts))
          case Err(ResourceNotFound) => Err(ValueError("Secret not found"))
          case Err(e) => Err(Api(e))
          case Ok(resp) =>
            var text :- Index(resp, "SecretString");
            if !text.Str? then Err(TypeError("the JSON object must be str"))
            else
              var doc :- loads(text.s);
              if doc.Obj? then Ok(GetValue(doc.fields, parts[7])) else Err(AttributeError("get"))
      else Err(ValueError("Unknown value_from"))
    case _ => Err(AttributeError("split"))
  }

  /**
   * A secret whose JSON text decodes to a mapping yields the entry under the
   * reference's eighth field, or None when the mapping has no such key.
   */
  lemma FetchSecretKey(s: string, api: Api, loads: Loads, text: string, doc: Dict<Value>)
    requires Strings.Field(s, ':', 2) == Some("secretsmanager") && |Strings.Split(s, ':')| >= 8
    requires api(GetSecretCall(Strings.Split(s, ':'))) == Ok(Obj([("SecretString", Str(text))]))
    requires loads(text) == Ok(Obj(doc))
    ensures FetchValue(Str(s), api, loads) == Ok(GetValue(doc, Strings.Split(s, ':')[7]))
  {
    var resp := Obj([("SecretString", Str(text))]);
    assert Index(resp, "SecretString") == Ok(Str(text));
  }

  // ---------------------------------------------------------------- encodings

  /** The keys of `ENCODE`. */
  const Encodings: seq<Value> := [Str("none"), Str("base64")]

  /**
   * `ENCODE[encoding](value)`: 'none' is the identity, 'base64' is Base64 of
   * the UTF-8 bytes. Any other encoding is a ValueError, except one that
   * cannot be a dictionary key at all, which is a TypeError.
   */
  function EncodeValue(encoding: Value, v: Value): (r: Result<Value, Error>)
    ensures encoding == Str("none") ==> r == Ok(v)
    ensures encoding == Str("base64") && v.Str? ==>
      r.Ok? && r.value.Str? && Base64.Decode(r.value.s).Some? &&
      Base64.Utf8Decode(Base64.Decode(r.value.s).value) == Some(v.s)
    ensures encoding == Str("base64") && !v.Str? ==> r.Err? && r.error.AttributeError?
    ensures encoding !in Encodings && (encoding.List? || encoding.Obj?) ==> r.Err? && r.error.TypeError?
    ensures encoding !in Encodings && !(encoding.List? || encoding.Obj?) ==> r.Err? && r.error.ValueError?
  {
    if encoding == Str("none") then Ok(v)
    else if encoding == Str("base64") then
      if v.Str? then
        Base64.EncodeTextRoundTrip(v.s);
        Ok(Str(Base64.EncodeText(v.s)))
      else Err(AttributeError("encode"))
    else if encoding.List? || encoding.Obj? then Err(TypeError("unhashable type"))
    else Err(ValueError("Invalid encoding value"))
  }

  // ---------------------------------------------------------------- validate

  /**
   * `validate`: the name (a generated unique id when absent), description
   * (default ''), type (default 'String'), value, encoding (default 'none'),
   * key id and tags (default []). The value is Value (default ''), replaced
   * by the fetched ValueFrom when given, replaced by a random string when
   * RandomValue is given, and then encoded.
   */
  function Validate(props: Props, uniqueId: string, api: Api, loads: Loads, draw: Random.Draw): (r: Result<Config, Error>)
    ensures r.Ok? <==>
      (GetValue(props, "Name").Null? || GetValue(props, "Name").Str?) &&
      (HasKey(props, "ValueFrom") ==> FetchValue(GetValue(props, "ValueFrom"), api, loads).Ok?) &&
      (HasKey(props, "RandomValue") ==> GenerateRandom(GetValue(props, "RandomValue"), draw).Ok?) &&
      EncodeValue(GetOr(props, "Encoding", Str("none")), RawValue(props, api, loads, draw)).Ok?
    ensures r.Ok? ==> r.value.name == if GetValue(props, "Name").Str? then GetValue(props, "Name").s else uniqueId
    ensures r.Ok? ==> (r.value.random <==> HasKey(props, "RandomValue"))
    ensures r.Ok? ==> (r.value.encoding == GetOr(props, "Encoding", Str("none")) &&
                       EncodeValue(r.value.encoding, RawValue(props, api, loads, draw)) == Ok(r.value.value))
    ensures r.Ok? ==> (r.value.description == GetOr(props, "Description", Str("")) &&
                       r.value.kind == GetOr(props, "Type", Str("String")) &&
                       r.value.keyId == GetValue(props, "KeyId") && r.value.tags == GetOr(props, "Tags", List([])))
  {
    var nameV := GetValue(props, "Name");
    if !(nameV.Null? || nameV.Str?) then Err(TypeError("Name"))
    else
      var fetched :- if HasKey(props, "ValueFrom") then FetchValue(GetValue(props, "ValueFrom"), api, loads)
                     else Ok(GetOr(props, "Value", Str("")));
      var generated :- if HasKey(props, "RandomValue") then GenerateRandom(GetValue(props, "RandomValue"), draw)
                       else Ok("");
      var raw := if HasKey(props, "RandomValue") then Str(generated) else fetched;
      var encoding := GetOr(props, "Encoding", Str("none"));
      var value :- EncodeValue(encoding, raw);
      Ok(Config(if nameV.Str? then nameV.s else uniqueId,
                GetOr(props, "Description", Str("")), GetOr(props, "Type", Str("String")),
                value, HasKey(props, "RandomValue"), encoding, GetValue(props, "KeyId"), GetOr(props, "Tags", List([]))))
  }

  /**
   * The value before encoding, when its sources succeed: the random string
   * if RandomValue is given, else the fetched value if ValueFrom is given,
   * else Value, else ''.
   */
  function RawValue(props: Props, api: Api, loads: Loads, draw: Random.Draw): Value {
    if HasKey(props, "RandomValue") then
      var g := GenerateRandom(GetValue(props, "RandomValue"), draw);
      if g.Ok? then Str(g.value) else Null
    else if HasKey(props, "ValueFrom") then
      var f := FetchValue(GetValue(props, "ValueFrom"), api, loads);
      if f.Ok? then f.value else Null
    else GetOr(props, "Value", Str(""))
  }

  /** With no source and no encoding, the value is Value, or '' when Value is absent. */
  lemma ValueDefaults(props: Props, uniqueId: string, api: Api, loads: Loads, draw: Random.Draw)
    requires !HasKey(props, "Value") && !HasKey(props, "ValueFrom") && !HasKey(props, "RandomValue")
    requires !HasKey(props, "Encoding") && !HasKey(props, "Name")
    ensures Validate(props, uniqueId, api, loads, draw).Ok?
    ensures Validate(props, uniqueId, api, loads, draw).value.value == Str("")
    ensures Validate(props, uniqueId, api, loads, draw).value.name == uniqueId
    ensures !Validate(props, uniqueId, api, loads, draw).value.random
  {
  }

  /**
   * A random value wins over Value and ValueFrom: with RandomValue given,
   * the stored value is the generated string, encoded, whatever the others
   * say (ValueFrom is still fetched, so its failure still fails validation).
   */
  lemma RandomOverrides(props: Props, uniqueId: string, api: Api, loads: Loads, draw: Random.Draw, s: string)
    requires HasKey(props, "RandomValue") && GenerateRandom(GetValue(props, "RandomValue"), draw) == Ok(s)
    requires Validate(props, uniqueId, api, loads, draw).Ok?
    ensures EncodeValue(GetOr(props, "Encoding", Str("none")), Str(s)) ==
      Ok(Validate(props, uniqueId, api, loads, draw).value.value)
  {
  }

  /** A fetched value wins over Value when there is no RandomValue. */
  lemma ValueFromOverrides(props: Props, uniqueId: string, api: Api, loads: Loads, draw: Random.Draw, v: Value)
    requires !HasKey(props, "RandomValue") && HasKey(props, "ValueFrom")
    requires FetchValue(GetValue(props, "ValueFrom"), api, loads) == Ok(v)
    requires Validate(props, uniqueId, api, loads, draw).Ok?
    ensures EncodeValue(GetOr(props, "Encoding", Str("none")), v) == Ok(Validate(props, uniqueId, api, loads, draw).value.value)
  {
  }

  // ---------------------------------------------------------------- attributes

  /**
   * The parameter's ARN, `arn:aws:ssm:<region>:<account>:parameter<name>`;
   * the name of a hierarchical parameter begins with '/'.
   */
  function ParameterArn(region: string, account: string, name: string): string {
    Strings.Join(["arn", "aws", "ssm", region, account, "parameter" + name], ":")
  }

  /** The reference CloudFormation resolves to the parameter's value. */
  function ResolveRef(kind: Value, id: string): string {
    "{{" + Strings.Join(["resolve", ResolveService(kind), id], ":") + "}}"
  }

  function ResolveService(kind: Value): (svc: string)
    ensures svc == "ssm-secure" <==> kind == Str("SecureString")
  {
    if kind == Str("SecureString") then "ssm-secure" else "ssm"
  }

  /**
   * `attributes`: Arn, built from the region and the fifth field of the
   * function's ARN (an IndexError when it has fewer fields), and Value,
   * which for a random value is a dynamic reference to the parameter
   * rather than the secret itself.
   */
  function Attributes(cfg: Config, id: string, env: Env): (r: Result<Props, Error>)
    ensures r.Ok? <==> |Strings.Split(env.functionArn, ':')| >= 5
    ensures r.Ok? ==> Keys(r.value) == ["Arn", "Value"]
    ensures r.Ok? ==> Get(r.value, "Arn") == Some(Str(ParameterArn(env.region, Strings.Split(env.functionArn, ':')[4], cfg.name)))
    ensures r.Ok? && cfg.random ==> Get(r.value, "Value") == Some(Str(ResolveRef(cfg.kind, id)))
    ensures r.Ok? && !cfg.random ==> Get(r.value, "Value") == Some(cfg.value)
    ensures r.Err? ==> r.error == IndexError
  {
    match Strings.Field(env.functionArn, ':', 4)
    case None => Err(IndexError)
    case Some(account) =>
      var attrs := [("Arn", Str(ParameterArn(env.region, account, cfg.name))),
                    ("Value", if cfg.random then Str(ResolveRef(cfg.kind, id)) else cfg.value)];
      assert attrs[0].0 == "Arn" && attrs[1].0 == "Value";
      GetHead(attrs, "Value");
      Ok(attrs)
  }

  /**
   * The Arn's ':'-fields are arn, aws, ssm, the region, the account and
   * 'parameter' followed by the name, when none of those contain ':'.
   */
  lemma ArnFields(region: string, account: string, name: string)
    requires ':' !in region && ':' !in account && ':' !in name
    ensures Strings.Split(ParameterArn(region, account, name), ':') ==
      ["arn", "aws", "ssm", region, account, "parameter" + name]
  {
    var parts := ["arn", "aws", "ssm", region, account, "parameter" + name];
    forall i | 0 <= i < |parts| ensures ':' !in parts[i] {
      if i == 5 {
        assert parts[5] == "parameter" + name;
      }
    }
    Strings.SplitJoin(parts, ':');
  }

  /** Inside its braces the reference reads 'resolve', the service and the id. */
  lemma ResolveRefFields(kind: Value, id: string)
    requires ':' !in id
    ensures var r := ResolveRef(kind, id);
      |r| >= 4 && r[..2] == "{{" && r[|r| - 2..] == "}}" &&
      Strings.Split(r[2..|r| - 2], ':') == ["resolve", ResolveService(kind), id]
  {
    var parts := ["resolve", ResolveService(kind), id];
    var inner := Strings.Join(parts, ":");
    var r := ResolveRef(kind, id);
    assert r == "{{" + inner + "}}";
    assert r[2..|r| - 2] == inner;
    Strings.SplitJoin(parts, ':');
  }

  // ---------------------------------------------------------------- create and delete

  /** A configuration whose put request the client accepts. */
  predicate WellTyped(cfg: Config) {
    cfg.kind.Str? && cfg.value.Str? && cfg.description.Str? && (cfg.keyId.Null? || cfg.keyId.Str?)
  }

  /** The parameter as the store keeps it after a put of `cfg`, with the given tags. */
  function Stored(cfg: Config, tags: Dict<string>): Param
    requires WellTyped(cfg)
  {
    Param(cfg.kind.s, cfg.value.s, cfg.description.s, if cfg.keyId.Str? then Some(cfg.keyId.s) else None, tags)
  }

  /** `ssm.put_parameter(**params)`, with KeyId only when it is not None. */
  function PutRequest(cfg: Config, overwrite: bool): ApiCall {
    PutCall(cfg.name, cfg.kind, cfg.value, cfg.description, cfg.keyId, overwrite)
  }

  /**
   * The put request creates the parameter or, with overwrite, replaces its
   * type, value, description and key while keeping its tags; without
   * overwrite an existing name is refused.
   */
  lemma PutApplies(p: Params, cfg: Config, overwrite: bool)
    requires WellTyped(cfg)
    ensures Apply(p, PutRequest(cfg, overwrite)) ==
      if cfg.name in p && !overwrite then Err(ParameterAlreadyExists)
      else Ok(p[cfg.name := Stored(cfg, if cfg.name in p then p[cfg.name].tags else [])])
  {
    PutCallArgs(cfg.name, cfg.kind, cfg.value, cfg.description, cfg.keyId, overwrite);
    PutCallNames(cfg.name, cfg.kind, cfg.value, cfg.description, cfg.keyId, overwrite);
    var args := PutRequest(cfg, overwrite).args;
    assert PutArgsValid(args);
    assert StrArg(args, "KeyId") == if cfg.keyId.Str? then Some(cfg.keyId.s) else None;
  }

  /**
   * `put_parameter`: send the put, take the name as the physical id, add
   * the resource's tags, and report the attributes. A failed put leaves the
   * physical id as it was.
   */
  function PutThen(put: ApiCall, name: string, tags: Value, id0: Option<string>, p: Params, attrs: Result<Props, Error>): (o: Outcome<Params>)
    ensures o.ret.Returned? ==> o.id == Some(name) && attrs.Ok? && o.ret.data == Some(attrs.value)
    ensures o.id == id0 || o.id == Some(name)
    ensures Apply(p, put).Err? ==> o == Raise(Api(Apply(p, put).error), id0, p)
    ensures o.failure == None
  {
    SsmTags.ExecOne(p, put);
    var sent := Exec(p, [Call(put)]);
    if sent.error.Some? then Raise(sent.error.value, id0, sent.after)
    else
      var tagged := Exec(sent.after, SsmTags.SyncSteps(name, tags, List([]), tags));
      if tagged.error.Some? then Raise(tagged.error.value, Some(name), tagged.after)
      else
        match attrs
        case Err(e) => Raise(e, Some(name), tagged.after)
        case Ok(a) => Return(a, Some(name), tagged.after)
  }

  /** A put and a tagging that both succeed end in the attributes, under the new name. */
  lemma PutThenSucceeds(put: ApiCall, name: string, tags: Value, id0: Option<string>, p: Params, attrs: Result<Props, Error>, q: Params, r: Params)
    requires Exec(p, [Call(put)]) == Done(None, q)
    requires Exec(q, SsmTags.SyncSteps(name, tags, List([]), tags)) == Done(None, r)
    requires attrs.Ok?
    ensures PutThen(put, name, tags, id0, p, attrs) == Return(attrs.value, Some(name), r)
  {
  }

  function PutParameterOp(cfg: Config, overwrite: bool, id0: Option<string>, p: Params, env: Env): Outcome<Params> {
    PutThen(PutRequest(cfg, overwrite), cfg.name, cfg.tags, id0, p, Attributes(cfg, cfg.name, env))
  }

  /** `create`: a put that refuses to overwrite. */
  function Create(cfg: Config, p: Params, env: Env): Outcome<Params> {
    PutParameterOp(cfg, false, None, p, env)
  }

  /** Creating a parameter whose name is taken fails and changes nothing. */
  lemma CreateRefusesExisting(cfg: Config, p: Params, env: Env)
    requires WellTyped(cfg) && cfg.name in p
    ensures Create(cfg, p, env) == Raise(Api(ParameterAlreadyExists), None, p)
  {
    PutApplies(p, cfg, false);
  }

  /** With no earlier tags, tagging a parameter just written adds exactly the resource's tags. */
  lemma AddInitialTags(q: Params, name: string, tags: Value, nd: Dict<string>)
    requires name in q && q[name].tags == [] && TagList(tags) == Some(nd) && UniqueKeys(nd)
    ensures Exec(q, SsmTags.SyncSteps(name, tags, List([]), tags)) == Done(None, q[name := q[name].(tags := nd)])
  {
    assert SsmTags.SyncSteps(name, tags, List([]), tags) == [Call(AddTagsCall(name, tags))];
    SsmTags.ExecAdd(q, name, tags, nd);
    UpdateFresh([], nd);
    assert [] + nd == nd;
  }

  /**
   * Putting a parameter under a fresh name stores exactly the configured
   * type, value, description, key and tags under that name, leaves every
   * other parameter alone, and makes the name the physical id.
   */
  lemma PutStoresFresh(cfg: Config, overwrite: bool, id0: Option<string>, p: Params, env: Env, nd: Dict<string>)
    requires WellTyped(cfg) && cfg.name !in p
    requires TagList(cfg.tags) == Some(nd) && UniqueKeys(nd)
    requires |Strings.Split(env.functionArn, ':')| >= 5
    ensures var o := PutParameterOp(cfg, overwrite, id0, p, env);
      o.ret.Returned? && o.id == Some(cfg.name) && o.after == p[cfg.name := Stored(cfg, nd)]
  {
    PutWritesFresh(cfg, overwrite, p);
    TagsFresh(cfg, p, nd);
    PutThenSucceeds(PutRequest(cfg, overwrite), cfg.name, cfg.tags, id0, p, Attributes(cfg, cfg.name, env),
                    p[cfg.name := Stored(cfg, [])], p[cfg.name := Stored(cfg, nd)]);
  }

  lemma PutWritesFresh(cfg: Config, overwrite: bool, p: Params)
    requires WellTyped(cfg) && cfg.name !in p
    ensures Exec(p, [Call(PutRequest(cfg, overwrite))]) == Done(None, p[cfg.name := Stored(cfg, [])])
  {
    PutApplies(p, cfg, overwrite);
    SsmTags.ExecOne(p, PutRequest(cfg, overwrite));
  }

  lemma TagsFresh(cfg: Config, p: Params, nd: Dict<string>)
    requires WellTyped(cfg) && cfg.name !in p
    requires TagList(cfg.tags) == Some(nd) && UniqueKeys(nd)
    ensures Exec(p[cfg.name := Stored(cfg, [])], SsmTags.SyncSteps(cfg.name, cfg.tags, List([]), cfg.tags)) ==
      Done(None, p[cfg.name := Stored(cfg, nd)])
  {
    var q := p[cfg.name := Stored(cfg, [])];
    AddInitialTags(q, cfg.name, cfg.tags, nd);
    assert q[cfg.name].(tags := nd) == Stored(cfg, nd);
    MapUpdateTwice(p, cfg.name, Stored(cfg, []), Stored(cfg, nd));
  }

  lemma MapUpdateTwice<K, V>(m: map<K, V>, k: K, a: V, b: V)
    ensures m[k := a][k := b] == m[k := b]
  {
  }

  lemma CreateStores(cfg: Config, p: Params, env: Env, nd: Dict<string>)
    requires WellTyped(cfg) && cfg.name !in p
    requires TagList(cfg.tags) == Some(nd) && UniqueKeys(nd)
    requires |Strings.Split(env.functionArn, ':')| >= 5
    ensures var o := Create(cfg, p, env);
      o.ret.Returned? && o.id == Some(cfg.name) && o.after == p[cfg.name := Stored(cfg, nd)]
  {
    PutStoresFresh(cfg, false, None, p, env, nd);
  }

  /** Deleting what `create` made gives back the store it started from. */
  lemma CreateThenDelete(cfg: Config, p: Params, env: Env, nd: Dict<string>)
    requires WellTyped(cfg) && cfg.name !in p
    requires TagList(cfg.tags) == Some(nd) && UniqueKeys(nd)
    requires |Strings.Split(env.functionArn, ':')| >= 5
    ensures var o := Create(cfg, p, env);
      o.id == Some(cfg.name) && DeleteResource(o.id.value, o.after).after == p
  {
    CreateStores(cfg, p, env, nd);
    DeleteRestores(p, cfg.name, Stored(cfg, nd));
  }

  lemma DeleteRestores(p: Params, name: string, x: Param)
    requires name !in p
    ensures DeleteResource(name, p[name := x]).after == p
  {
    assert p[name := x] - {name} == p;
  }

  // ---------------------------------------------------------------- update

  /** Some property that the stored parameter depends on changed. */
  predicate NeedPut(props: Props, oldProps: Props, changed: Changed) {
    changed(props, oldProps, "Name") || changed(props, oldProps, "Description") ||
    changed(props, oldProps, "Type") || changed(props, oldProps, "KeyId") ||
    changed(props, oldProps, "Encoding") || changed(props, oldProps, "Value") ||
    changed(props, oldProps, "ValueFrom") || changed(props, oldProps, "RandomValue")
  }

  /** A put would not throw away a random value that should be kept. */
  predicate CanPut(cfg: Config, props: Props, oldProps: Props, changed: Changed) {
    !cfg.random || changed(props, oldProps, "RandomValue")
  }

  /**
   * `update`: refuse a put that would replace a random value the template
   * did not ask to regenerate; on a Name change create the new parameter
   * (CloudFormation deletes the old one); otherwise put with overwrite if a
   * stored property changed, resynchronise tags if Tags changed, and report
   * the attributes.
   */
  function Update(cfg: Config, props: Props, oldProps: Props, id: string, changed: Changed, p: Params, env: Env): (o: Outcome<Params>)
    ensures o.id == Some(id) || o.id == Some(cfg.name)
    ensures !NeedPut(props, oldProps, changed) ==> o.id == Some(id)
  {
    if NeedPut(props, oldProps, changed) && !CanPut(cfg, props, oldProps, changed) then
      Raise(RuntimeError("Would need to overwrite previous RandomValue"), Some(id), p)
    else if changed(props, oldProps, "Name") then PutParameterOp(cfg, false, Some(id), p, env)
    else
      var put := if NeedPut(props, oldProps, changed) then PutParameterOp(cfg, true, Some(id), p, env)
                 else ReturnNone(Some(id), p);
      if put.ret.Raised? then put
      else
        var id1 := put.id.value;
        var tagged := RetagIf(changed(props, oldProps, "Tags"), id1, cfg.tags, oldProps, put.after);
        if tagged.error.Some? then Raise(tagged.error.value, Some(id1), tagged.after)
        else
          match Attributes(cfg, id1, env)
          case Err(e) => Raise(e, Some(id1), tagged.after)
          case Ok(attrs) => Return(attrs, Some(id1), tagged.after)
  }

  /** `if has_property_changed('Tags'): update_tags(self.tags, old Tags or [])` */
  function RetagIf(retag: bool, id: string, tags: Value, oldProps: Props, p: Params): (d: Done)
    ensures !retag ==> d == Done(None, p)
  {
    if retag then Exec(p, SsmTags.SyncSteps(id, tags, GetOr(oldProps, "Tags", List([])), tags)) else Done(None, p)
  }

  /**
   * A change that needs a put while the value is random and RandomValue is
   * unchanged is refused with RuntimeError before anything is sent.
   */
  lemma UpdateRefusesRandomRegen(cfg: Config, props: Props, oldProps: Props, id: string, changed: Changed, p: Params, env: Env)
    requires cfg.random && !changed(props, oldProps, "RandomValue")
    requires changed(props, oldProps, "Description") || changed(props, oldProps, "Type") ||
             changed(props, oldProps, "KeyId") || changed(props, oldProps, "Encoding") ||
             changed(props, oldProps, "Value") || changed(props, oldProps, "ValueFrom") ||
             changed(props, oldProps, "Name")
    ensures var o := Update(cfg, props, oldProps, id, changed, p, env);
      o.ret.Raised? && o.ret.err.RuntimeError? && o.after == p && o.id == Some(id)
  {
  }

  /**
   * A Name change that is allowed is a create of the new name: the new
   * parameter is stored exactly as configured and the old one is left for
   * CloudFormation to delete.
   */
  lemma UpdateRenameCreates(cfg: Config, props: Props, oldProps: Props, id: string, changed: Changed, p: Params, env: Env, nd: Dict<string>)
    requires changed(props, oldProps, "Name") && CanPut(cfg, props, oldProps, changed)
    requires WellTyped(cfg) && cfg.name !in p && TagList(cfg.tags) == Some(nd) && UniqueKeys(nd)
    requires |Strings.Split(env.functionArn, ':')| >= 5
    ensures var o := Update(cfg, props, oldProps, id, changed, p, env);
      o.ret.Returned? && o.id == Some(cfg.name) && o.after == p[cfg.name := Stored(cfg, nd)]
  {
    PutStoresFresh(cfg, false, Some(id), p, env, nd);
  }

  /** When no property changed, nothing is sent and the id and store stay as they were. */
  lemma UpdateUnchanged(cfg: Config, props: Props, oldProps: Props, id: string, changed: Changed, p: Params, env: Env)
    requires !NeedPut(props, oldProps, changed) && !changed(props, oldProps, "Tags")
    requires |Strings.Split(env.functionArn, ':')| >= 5
    ensures var o := Update(cfg, props, oldProps, id, changed, p, env);
      o == Return(Attributes(cfg, id, env).value, Some(id), p)
  {
  }

  /**
   * A changed value (Tags unchanged) overwrites the stored parameter in
   * place: its type, value, description and key become the configured ones
   * and the resource's tags are added to the ones it had.
   */
  lemma UpdateOverwrites(cfg: Config, props: Props, oldProps: Props, id: string, changed: Changed, p: Params, env: Env, nd: Dict<string>)
    requires NeedPut(props, oldProps, changed) && CanPut(cfg, props, oldProps, changed)
    requires !changed(props, oldProps, "Name") && !changed(props, oldProps, "Tags")
    requires WellTyped(cfg) && cfg.name in p && TagList(cfg.tags) == Some(nd)
    requires |Strings.Split(env.functionArn, ':')| >= 5
    ensures var o := Update(cfg, props, oldProps, id, changed, p, env);
      o.ret.Returned? && o.id == Some(cfg.name) &&
      o.after == p[cfg.name := Stored(cfg, Dicts.Update(p[cfg.name].tags, nd))]
  {
    var q := p[cfg.name := Stored(cfg, p[cfg.name].tags)];
    var r := p[cfg.name := Stored(cfg, Dicts.Update(p[cfg.name].tags, nd))];
    OverwriteKeepsTags(cfg, p);
    TagsAdded(cfg, p, nd);
    PutThenSucceeds(PutRequest(cfg, true), cfg.name, cfg.tags, Some(id), p, Attributes(cfg, cfg.name, env), q, r);
    UpdateAfterPut(cfg, props, oldProps, id, changed, p, env);
  }

  lemma OverwriteKeepsTags(cfg: Config, p: Params)
    requires WellTyped(cfg) && cfg.name in p
    ensures Exec(p, [Call(PutRequest(cfg, true))]) == Done(None, p[cfg.name := Stored(cfg, p[cfg.name].tags)])
  {
    PutApplies(p, cfg, true);
    SsmTags.ExecOne(p, PutRequest(cfg, true));
  }

  lemma TagsAdded(cfg: Config, p: Params, nd: Dict<string>)
    requires WellTyped(cfg) && cfg.name in p && TagList(cfg.tags) == Some(nd)
    ensures Exec(p[cfg.name := Stored(cfg, p[cfg.name].tags)], SsmTags.SyncSteps(cfg.name, cfg.tags, List([]), cfg.tags)) ==
      Done(None, p[cfg.name := Stored(cfg, Dicts.Update(p[cfg.name].tags, nd))])
  {
    var q := p[cfg.name := Stored(cfg, p[cfg.name].tags)];
    assert SsmTags.SyncSteps(cfg.name, cfg.tags, List([]), cfg.tags) == [Call(AddTagsCall(cfg.name, cfg.tags))];
    SsmTags.ExecAdd(q, cfg.name, cfg.tags, nd);
    assert q[cfg.name := q[cfg.name].(tags := Dicts.Update(q[cfg.name].tags, nd))] ==
      p[cfg.name := Stored(cfg, Dicts.Update(p[cfg.name].tags, nd))];
  }

  /** With Name and Tags unchanged and a put needed, `update` is the put with overwrite. */
  lemma UpdateAfterPut(cfg: Config, props: Props, oldProps: Props, id: string, changed: Changed, p: Params, env: Env)
    requires NeedPut(props, oldProps, changed) && CanPut(cfg, props, oldProps, changed)
    requires !changed(props, oldProps, "Name") && !changed(props, oldProps, "Tags")
    requires PutParameterOp(cfg, true, Some(id), p, env).ret.Returned?
    ensures Update(cfg, props, oldProps, id, changed, p, env) == PutParameterOp(cfg, true, Some(id), p, env)
  {
    var put := PutParameterOp(cfg, true, Some(id), p, env);
    assert put.id == Some(cfg.name);
    var attrs := Attributes(cfg, cfg.name, env);
    assert attrs.Ok? && put == Return(attrs.value, Some(cfg.name), put.after);
    assert RetagIf(false, cfg.name, cfg.tags, oldProps, put.after) == Done(None, put.after);
  }

  /**
   * A change of Tags alone leaves the parameter with exactly the new tags,
   * provided the store held no tag keys beyond the old template's: every
   * dropped key is removed and every new tag added.
   */
  lemma UpdateRetags(cfg: Config, props: Props, oldProps: Props, id: string, changed: Changed, p: Params, env: Env)
    requires !NeedPut(props, oldProps, changed) && changed(props, oldProps, "Tags")
    requires id in p
    requires var oldTags := GetOr(oldProps, "Tags", List([]));
      TagList(oldTags).Some? && |oldTags.items| > 0 &&
      forall k :: HasKey(p[id].tags, k) ==> HasKey(TagList(oldTags).value, k)
    requires TagList(cfg.tags).Some? && UniqueKeys(TagList(cfg.tags).value)
    requires |Strings.Split(env.functionArn, ':')| >= 5
    ensures var o := Update(cfg, props, oldProps, id, changed, p, env);
      o.ret.Returned? && o.id == Some(id) && SsmTags.TaggedExactly(p, Done(None, o.after), id, TagList(cfg.tags).value)
  {
    var oldTags := GetOr(oldProps, "Tags", List([]));
    SsmTags.SyncLeavesNewTags(p, id, oldTags, cfg.tags);
  }
}
