/**
 * The provider that publishes a Lambda layer version from an S3 object and
 * takes the version's ARN as physical id. Every update publishes a new
 * version; delete removes the version unless the template asks to retain it.
 */
module LayerVersion {
  import opened Wrappers
  import opened Dicts
  import opened Values
  import opened Lifecycle
  import Strings

  /** The properties copied to the request when the template gives them. */
  const OptionalKeys: seq<string> := ["CompatibleArchitectures", "CompatibleRuntimes", "Description", "LicenseInfo"]

  /** `{'S3Bucket': ..., 'S3Key': ...}` plus S3ObjectVersion when given. */
  function ContentArgs(content: Props, bucket: Value, key: Value): Props {
    [("S3Bucket", bucket), ("S3Key", key)] + Pick(content, ["S3ObjectVersion"])
  }

  /** The keyword arguments: LayerName, Content, then the optional properties given. */
  function Kwargs(name: Value, content: Value, props: Props): Props {
    [("LayerName", name), ("Content", content)] + Pick(props, OptionalKeys)
  }

  /**
   * `validate`: the keyword arguments of `publish_layer_version`. A missing
   * LayerName, Content, S3Bucket or S3Key makes it return False; a Content
   * that is not a mapping cannot be indexed by name, a TypeError the
   * handler does not catch.
   */
  function Validate(props: Props): (r: Result<Props, Error>)
    ensures r.Ok? <==> HasKey(props, "LayerName") && HasKey(props, "Content") &&
                       GetValue(props, "Content").Obj? &&
                       HasKey(GetValue(props, "Content").fields, "S3Bucket") &&
                       HasKey(GetValue(props, "Content").fields, "S3Key")
    ensures r.Err? ==> r.error == Invalid || (r.error.TypeError? && HasKey(props, "Content") && !GetValue(props, "Content").Obj?)
    ensures r.Ok? ==> var given := GetValue(props, "Content").fields;
      r.value == Kwargs(GetValue(props, "LayerName"),
                        Obj(ContentArgs(given, GetValue(given, "S3Bucket"), GetValue(given, "S3Key"))), props)
  {
    match Get(props, "LayerName")
    case None => Err(Invalid)
    case Some(name) =>
      match Get(props, "Content")
      case None => Err(Invalid)
      case Some(content) =>
        if !content.Obj? then Err(TypeError("not subscriptable"))
        else
          match (Get(content.fields, "S3Bucket"), Get(content.fields, "S3Key"))
          case (Some(bucket), Some(key)) =>
            Ok(Kwargs(name, Obj(ContentArgs(content.fields, bucket, key)), props))
          case _ => Err(Invalid)
  }

  /**
   * The request carries LayerName as given and each optional property
   * exactly when present, with its value.
   */
  lemma KwargsCopy(name: Value, content: Value, props: Props)
    ensures var kwargs := Kwargs(name, content, props);
      UniqueKeys(kwargs) &&
      Get(kwargs, "LayerName") == Some(name) && Get(kwargs, "Content") == Some(content) &&
      (forall k :: k in OptionalKeys ==> Get(kwargs, k) == Get(props, k))
  {
    KwargsHead(name, content, props);
    KwargsOptional(name, content, props);
  }

  lemma KwargsHead(name: Value, content: Value, props: Props)
    ensures var kwargs := Kwargs(name, content, props);
      UniqueKeys(kwargs) && Get(kwargs, "LayerName") == Some(name) && Get(kwargs, "Content") == Some(content)
  {
    var head: Props := [("LayerName", name), ("Content", content)];
    var picked := Pick(props, OptionalKeys);
    PickGet(props, OptionalKeys);
    assert Get(picked, "LayerName") == None && Get(picked, "Content") == None;
    UniqueConcat(head, picked);
    GetAppend(head, picked, "LayerName");
    GetAppend(head, picked, "Content");
  }

  lemma KwargsOptional(name: Value, content: Value, props: Props)
    ensures forall k :: k in OptionalKeys ==> Get(Kwargs(name, content, props), k) == Get(props, k)
  {
    var head: Props := [("LayerName", name), ("Content", content)];
    var picked := Pick(props, OptionalKeys);
    PickGet(props, OptionalKeys);
    forall k | k in OptionalKeys ensures Get(head + picked, k) == Get(props, k) {
      GetAppend(head, picked, k);
    }
  }

  /** The request has no key besides LayerName, Content and the optional properties given. */
  lemma KwargsKeys(name: Value, content: Value, props: Props)
    ensures forall k :: HasKey(Kwargs(name, content, props), k) <==>
      k == "LayerName" || k == "Content" || (k in OptionalKeys && HasKey(props, k))
  {
    var head: Props := [("LayerName", name), ("Content", content)];
    var picked := Pick(props, OptionalKeys);
    PickGet(props, OptionalKeys);
    forall k ensures HasKey(head + picked, k) <==>
      k == "LayerName" || k == "Content" || (k in OptionalKeys && HasKey(props, k))
    {
      HasKeyAppend(head, picked, k);
      assert Get(picked, k) == if k in OptionalKeys then Get(props, k) else None;
      assert HasKey(head, k) <==> k == head[0].0 || k == head[1].0;
    }
  }

  /**
   * The Content argument carries the S3 location as given, and the object
   * version exactly when the template names one.
   */
  lemma ContentCopied(content: Props, bucket: Value, key: Value)
    requires Get(content, "S3Bucket") == Some(bucket) && Get(content, "S3Key") == Some(key)
    ensures var args := ContentArgs(content, bucket, key);
      UniqueKeys(args) &&
      Get(args, "S3Bucket") == Get(content, "S3Bucket") &&
      Get(args, "S3Key") == Get(content, "S3Key") &&
      Get(args, "S3ObjectVersion") == Get(content, "S3ObjectVersion") &&
      |args| == if HasKey(content, "S3ObjectVersion") then 3 else 2
  {
    var fixed: Props := [("S3Bucket", bucket), ("S3Key", key)];
    var version := Pick(content, ["S3ObjectVersion"]);
    PickGet(content, ["S3ObjectVersion"]);
    UniqueConcat(fixed, version);
    GetAppend(fixed, version, "S3Bucket");
    GetAppend(fixed, version, "S3Key");
    GetAppend(fixed, version, "S3ObjectVersion");
  }

  function PublishCall(kwargs: Props): ApiCall {
    ApiCall("publish_layer_version", kwargs)
  }

  /**
   * `create` (and `update`, which publishes a new version): the version's
   * ARN becomes the physical id and nothing is returned.
   */
  function Create(kwargs: Props, id: Option<string>, api: Api): (o: Outcome<seq<ApiCall>>)
    ensures o.after == [PublishCall(kwargs)]
    ensures o.ret.Returned? <==> api(PublishCall(kwargs)).Ok? &&
                                 Index(api(PublishCall(kwargs)).value, "LayerVersionArn").Ok? &&
                                 Index(api(PublishCall(kwargs)).value, "LayerVersionArn").value.Str?
    ensures o.ret.Returned? ==> o.ret.data == Some([]) && o.id.Some? &&
                                Index(api(PublishCall(kwargs)).value, "LayerVersionArn") == Ok(Str(o.id.value))
    ensures o.ret.Raised? ==> o.id == id
  {
    var call := PublishCall(kwargs);
    match api(call)
    case Err(e) => Raise(Api(e), id, [call])
    case Ok(response) =>
      match Index(response, "LayerVersionArn")
      case Err(e) => Raise(e, id, [call])
      case Ok(arn) =>
        if arn.Str? then Return([], Some(arn.s), [call])
        else Raise(TypeError("physical resource id"), id, [call])
  }

  /** `DeletionPolicy` Retain keeps the version. */
  predicate Retained(props: Props) {
    GetOr(props, "DeletionPolicy", Str("")) == Str("Retain")
  }

  /** The version number of a layer version ARN: the text after its last ':'. */
  function VersionOf(id: string): (v: string)
    ensures ':' !in v
  {
    Strings.AfterLast(id, ':')
  }

  /**
   * Version is an integer parameter of `delete_layer_version`; the client
   * library refuses any other type before sending the request.
   */
  predicate Refused(call: ApiCall) {
    call.op == "delete_layer_version" && !GetValue(call.args, "Version").Int?
  }

  function DeleteCall(name: Value, version: Value): ApiCall {
    ApiCall("delete_layer_version", [("LayerName", name), ("Version", version)])
  }

  /** Sending a delete: the client's refusal, the cloud's error, or done. */
  function SendDelete(call: ApiCall, id: string, api: Api): (o: Outcome<seq<ApiCall>>)
    ensures o.id == Some(id)
    ensures Refused(call) ==> o == Raise(Api(ParamValidation), Some(id), [])
    ensures !Refused(call) ==> o.after == [call] && (o.ret.Returned? <==> api(call).Ok?)
  {
    if Refused(call) then Raise(Api(ParamValidation), Some(id), [])
    else
      match api(call)
      case Err(e) => Raise(Api(e), Some(id), [call])
      case Ok(_) => ReturnNone(Some(id), [call])
  }

  /**
   * `delete` as written: unless retained, delete the version named by the
   * text after the last ':' of the physical id, passed on as that text.
   */
  function Delete(props: Props, id: string, api: Api): (o: Outcome<seq<ApiCall>>)
    ensures Retained(props) ==> o == ReturnNone(Some(id), [])
    ensures !Retained(props) && !HasKey(props, "LayerName") ==> o == Raise(KeyError("LayerName"), Some(id), [])
    ensures !Retained(props) && HasKey(props, "LayerName") ==>
      o == SendDelete(DeleteCall(GetValue(props, "LayerName"), Str(VersionOf(id))), id, api)
  {
    if Retained(props) then ReturnNone(Some(id), [])
    else
      match Require(props, "LayerName")
      case Err(e) => Raise(e, Some(id), [])
      case Ok(name) => SendDelete(DeleteCall(name, Str(VersionOf(id))), id, api)
  }

  /**
   * The version is handed over as a string, which the client refuses for an
   * integer parameter: a delete that is not retained never reaches Lambda.
   */
  lemma DeleteAlwaysRefused(props: Props, id: string, api: Api)
    requires !Retained(props) && HasKey(props, "LayerName")
    ensures Delete(props, id, api) == Raise(Api(ParamValidation), Some(id), [])
  {
  }

  /** The evidently intended delete: the version converted with `int()`. */
  function DeleteIntended(props: Props, id: string, api: Api): (o: Outcome<seq<ApiCall>>)
    ensures Retained(props) ==> o == ReturnNone(Some(id), [])
    ensures !Retained(props) && HasKey(props, "LayerName") && Strings.ParseInt(VersionOf(id)).Some? ==>
      o == SendDelete(DeleteCall(GetValue(props, "LayerName"), Int(Strings.ParseInt(VersionOf(id)).value)), id, api)
    ensures !Retained(props) && HasKey(props, "LayerName") && Strings.ParseInt(VersionOf(id)).None? ==>
      o == Raise(ValueError("invalid literal for int()"), Some(id), [])
  {
    if Retained(props) then ReturnNone(Some(id), [])
    else
      match Require(props, "LayerName")
      case Err(e) => Raise(e, Some(id), [])
      case Ok(name) =>
        match Strings.ParseInt(VersionOf(id))
        case None => Raise(ValueError("invalid literal for int()"), Some(id), [])
        case Some(n) => SendDelete(DeleteCall(name, Int(n)), id, api)
  }

  /**
   * Delete removes what create published: for the ARN of version `n`, the
   * intended delete asks Lambda to remove version `n` of the same layer.
   */
  lemma DeleteTargetsPublished(props: Props, arnPrefix: string, n: nat, api: Api)
    requires !Retained(props) && HasKey(props, "LayerName")
    ensures var id := arnPrefix + ":" + Strings.NatToString(n);
      DeleteIntended(props, id, api).after == [DeleteCall(GetValue(props, "LayerName"), Int(n))]
  {
    var digits := Strings.NatToString(n);
    var id := arnPrefix + ":" + digits;
    assert ':' !in digits by {
      forall i | 0 <= i < |digits| ensures digits[i] != ':' {
        assert Strings.IsDigit(digits[i]);
      }
    }
    assert id == arnPrefix + [':'] + digits;
    Strings.AfterLastAppend(arnPrefix, digits, ':');
    assert VersionOf(id) == digits;
    Strings.ParseIntNatToString(n);
    var call := DeleteCall(GetValue(props, "LayerName"), Int(n));
    GetHead(call.args, "Version");
    GetHead(call.args[1..], "Version");
    assert GetValue(call.args, "Version") == Int(n);
    assert !Refused(call);
  }
}
