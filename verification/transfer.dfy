/**
 * The AWS Transfer server provider: the endpoint and identity provider
 * types with their details, checked for consistency, and the server id
 * returned by Transfer as the physical id.
 */
module TransferServer {
  import opened Wrappers
  import opened Dicts
  import opened Values
  import opened Lifecycle

  const ApiGatewayProvider: string := "API_GATEWAY"
  const VpcEndpoint: string := "VPC_ENDPOINT"
  const ServiceManaged: string := "SERVICE_MANAGED"
  const PublicEndpoint: string := "PUBLIC"

  datatype Config = Config(endpointType: Value, endpointDetails: Value, identityProviderType: Value,
                           identityProviderDetails: Value, hostKey: Value, loggingRole: Value)

  /** The properties as `validate` reads them, with the two types defaulted. */
  function Read(props: Props): Config {
    Config(GetOr(props, "EndpointType", Str(PublicEndpoint)), GetValue(props, "EndpointDetails"),
           GetOr(props, "IdentityProviderType", Str(ServiceManaged)), GetValue(props, "IdentityProviderDetails"),
           GetValue(props, "HostKey"), GetValue(props, "LoggingRole"))
  }

  /**
   * A VPC endpoint comes with its details and a public one without; an
   * API Gateway identity provider comes with its details and a service
   * managed one without. Other type names are left to Transfer.
   */
  predicate Consistent(c: Config) {
    (c.endpointType == Str(VpcEndpoint) ==> !c.endpointDetails.Null?) &&
    (c.endpointType == Str(PublicEndpoint) ==> c.endpointDetails.Null?) &&
    (c.identityProviderType == Str(ApiGatewayProvider) ==> !c.identityProviderDetails.Null?) &&
    (c.identityProviderType == Str(ServiceManaged) ==> c.identityProviderDetails.Null?)
  }

  /** `validate`: the four checks in order, each raising ValueError. */
  function Validate(props: Props): (r: Result<Config, Error>)
    ensures r.Ok? <==> Consistent(Read(props))
    ensures r.Ok? ==> r.value == Read(props)
    ensures r.Err? ==> r.error.ValueError?
    ensures var c := Read(props);
      c.endpointType == Str(VpcEndpoint) && c.endpointDetails.Null? ==>
        r == Err(ValueError("VPC_ENDPOINT type specified without endpoint details"))
  {
    var c := Read(props);
    if c.endpointType == Str(VpcEndpoint) && c.endpointDetails.Null? then
      Err(ValueError("VPC_ENDPOINT type specified without endpoint details"))
    else if c.endpointType == Str(PublicEndpoint) && !c.endpointDetails.Null? then
      Err(ValueError("PUBLIC type specified *with* endpoint details"))
    else if c.identityProviderType == Str(ApiGatewayProvider) && c.identityProviderDetails.Null? then
      Err(ValueError("API_GATEWAY type specified without identity provider details"))
    else if c.identityProviderType == Str(ServiceManaged) && !c.identityProviderDetails.Null? then
      Err(ValueError("SERVICE_MANAGED type specified *with* identity provider details"))
    else Ok(c)
  }

  /** Properties that give neither type nor details describe a public, service managed server. */
  lemma DefaultsAccepted(props: Props)
    requires !HasKey(props, "EndpointType") && !HasKey(props, "IdentityProviderType")
    requires GetValue(props, "EndpointDetails").Null? && GetValue(props, "IdentityProviderDetails").Null?
    ensures Validate(props).Ok?
    ensures Validate(props).value.endpointType == Str("PUBLIC")
    ensures Validate(props).value.identityProviderType == Str("SERVICE_MANAGED")
  {
  }

  /** The four optional parameters, before the None ones are left out. */
  function Optional(c: Config): Props {
    [("EndpointDetails", c.endpointDetails), ("IdentityProviderDetails", c.identityProviderDetails),
     ("HostKey", c.hostKey), ("LoggingRole", c.loggingRole)]
  }

  /**
   * `build_params`: both types, then each optional parameter that is not
   * None. Every `add_if_not_none` assigns a key not yet there, so it appends.
   */
  function BuildParams(c: Config): (r: Props)
    ensures |r| >= 2 && r[0] == ("EndpointType", c.endpointType) && r[1] == ("IdentityProviderType", c.identityProviderType)
  {
    [("EndpointType", c.endpointType), ("IdentityProviderType", c.identityProviderType)] + DropNone(Optional(c))
  }

  /** The request holds both types, and each optional parameter exactly when it is not None. */
  lemma ParamsGet(c: Config, k: string)
    ensures Get(BuildParams(c), k) ==
      if k == "EndpointType" then Some(c.endpointType)
      else if k == "IdentityProviderType" then Some(c.identityProviderType)
      else if Get(Optional(c), k).Some? && !Get(Optional(c), k).value.Null? then Get(Optional(c), k)
      else None
  {
    var req := [("EndpointType", c.endpointType), ("IdentityProviderType", c.identityProviderType)];
    GetAppend(req, DropNone(Optional(c)), k);
    OptionalUnique(c);
    FilterGet(Optional(c), IsPresent, k);
    TypesGet(c, k);
  }

  lemma OptionalUnique(c: Config)
    ensures UniqueKeys(Optional(c))
  {
  }

  /** The two types lead the request, under their own names. */
  lemma TypesGet(c: Config, k: string)
    ensures var req := [("EndpointType", c.endpointType), ("IdentityProviderType", c.identityProviderType)];
      HasKey(req, k) <==> k == "EndpointType" || k == "IdentityProviderType"
    ensures var req := [("EndpointType", c.endpointType), ("IdentityProviderType", c.identityProviderType)];
      Get(req, k) == if k == "EndpointType" then Some(c.endpointType)
                     else if k == "IdentityProviderType" then Some(c.identityProviderType) else None
  {
    var req := [("EndpointType", c.endpointType), ("IdentityProviderType", c.identityProviderType)];
    assert req[0].0 == "EndpointType" && req[1].0 == "IdentityProviderType";
    assert req[1..][0] == req[1];
  }

  /** With validated properties, EndpointDetails is sent for a VPC endpoint and not for a public one. */
  lemma DetailsFollowTypes(props: Props)
    requires Validate(props).Ok?
    ensures var p := BuildParams(Validate(props).value);
      (Read(props).endpointType == Str(VpcEndpoint) ==> HasKey(p, "EndpointDetails")) &&
      (Read(props).endpointType == Str(PublicEndpoint) ==> !HasKey(p, "EndpointDetails")) &&
      (Read(props).identityProviderType == Str(ApiGatewayProvider) ==> HasKey(p, "IdentityProviderDetails")) &&
      (Read(props).identityProviderType == Str(ServiceManaged) ==> !HasKey(p, "IdentityProviderDetails"))
  {
    var c := Validate(props).value;
    ParamsGet(c, "EndpointDetails");
    ParamsGet(c, "IdentityProviderDetails");
  }

  function CreateCall(c: Config): ApiCall {
    ApiCall("create_server", BuildParams(c))
  }

  /** `update_server`: the same parameters with ServerId set to the physical id. */
  function UpdateCall(c: Config, id: string): ApiCall {
    ApiCall("update_server", BuildParams(c) + [("ServerId", Str(id))])
  }

  function DeleteCall(id: string): ApiCall {
    ApiCall("delete_server", [("ServerId", Str(id))])
  }

  /** `get_attributes` */
  function Attributes(id: string): Props {
    [("ServerId", Str(id))]
  }

  /** `create`: the returned ServerId becomes the physical id and the only attribute. */
  function Create(c: Config, api: Api): (o: Outcome<seq<ApiCall>>)
    ensures o.after == [CreateCall(c)]
    ensures o.ret.Returned? <==> exists s :: api(CreateCall(c)).Ok? && Index(api(CreateCall(c)).value, "ServerId") == Ok(Str(s))
    ensures o.ret.Returned? ==> o.id.Some? && Index(api(CreateCall(c)).value, "ServerId") == Ok(Str(o.id.value)) &&
                                o.ret.data == Some([("ServerId", Str(o.id.value))])
    ensures o.ret.Raised? ==> o.id == None
  {
    match api(CreateCall(c))
    case Err(e) => Raise(Api(e), None, [CreateCall(c)])
    case Ok(response) =>
      match Index(response, "ServerId")
      case Err(e) => Raise(e, None, [CreateCall(c)])
      case Ok(serverId) =>
        if serverId.Str? then Return(Attributes(serverId.s), Some(serverId.s), [CreateCall(c)])
        else Raise(TypeError("physical resource id"), None, [CreateCall(c)])
  }

  /** `update`: the server is changed in place; the physical id and attribute stay. */
  function Update(c: Config, id: string, api: Api): (o: Outcome<seq<ApiCall>>)
    ensures o.after == [UpdateCall(c, id)] && o.id == Some(id)
    ensures o.ret.Returned? <==> api(UpdateCall(c, id)).Ok?
    ensures o.ret.Returned? ==> o.ret.data == Some([("ServerId", Str(id))])
  {
    match api(UpdateCall(c, id))
    case Err(e) => Raise(Api(e), Some(id), [UpdateCall(c, id)])
    case Ok(_) => Return(Attributes(id), Some(id), [UpdateCall(c, id)])
  }

  function Delete(id: string, api: Api): (o: Outcome<seq<ApiCall>>)
    ensures o.after == [DeleteCall(id)] && o.id == Some(id)
    ensures o.ret.Returned? <==> api(DeleteCall(id)).Ok?
  {
    match api(DeleteCall(id))
    case Err(e) => Raise(Api(e), Some(id), [DeleteCall(id)])
    case Ok(_) => ReturnNone(Some(id), [DeleteCall(id)])
  }

  /**
   * Later requests address the server that was created: update and delete
   * send the ServerId that create returned, and update sends the same
   * parameters as create besides it.
   */
  lemma LaterCallsTargetCreated(c: Config, api: Api, c': Config)
    requires Create(c, api).ret.Returned?
    ensures var s := Create(c, api).id.value;
      Get(UpdateCall(c', s).args, "ServerId") == Some(Index(api(CreateCall(c)).value, "ServerId").value) &&
      Get(DeleteCall(s).args, "ServerId") == Some(Index(api(CreateCall(c)).value, "ServerId").value) &&
      UpdateCall(c', s).args[..|UpdateCall(c', s).args| - 1] == CreateCall(c').args
  {
    var s := Create(c, api).id.value;
    var p := BuildParams(c');
    assert !HasKey(p, "ServerId") by {
      ParamsGet(c', "ServerId");
    }
    GetAppend(p, [("ServerId", Str(s))], "ServerId");
  }
}

/**
 * The AWS Transfer user provider: a user of a Transfer server, whose
 * physical id is "<ServerId>/<UserName>".
 */
module TransferUser {
  import opened Wrappers
  import opened Dicts
  import opened Values
  import opened Lifecycle
  import Strings

  datatype Config = Config(role: Value, policy: Value, serverId: Value, sshKey: Value, userName: Value, homeDir: Value)

  /**
   * `validate`: Role, ServerId, SshPublicKeyBody and UserName are read in
   * that order and raise KeyError when missing; HomeDirectory defaults to
   * '/' + UserName. `render` is Python's `str()` of a value.
   */
  function Validate(props: Props, render: Value -> string): (r: Result<Config, Error>)
    ensures r.Ok? <==> HasKey(props, "Role") && HasKey(props, "ServerId") && HasKey(props, "SshPublicKeyBody") &&
                       HasKey(props, "UserName")
    ensures !HasKey(props, "Role") ==> r == Err(KeyError("Role"))
    ensures HasKey(props, "Role") && !HasKey(props, "ServerId") ==> r == Err(KeyError("ServerId"))
    ensures r.Err? ==> r.error.KeyError?
    ensures r.Ok? ==> Get(props, "Role") == Some(r.value.role) && Get(props, "ServerId") == Some(r.value.serverId) &&
                      Get(props, "SshPublicKeyBody") == Some(r.value.sshKey) && Get(props, "UserName") == Some(r.value.userName) &&
                      r.value.policy == GetValue(props, "Policy") &&
                      r.value.homeDir == GetOr(props, "HomeDirectory", Str("/" + render(r.value.userName)))
  {
    var role :- Require(props, "Role");
    var serverId :- Require(props, "ServerId");
    var sshKey :- Require(props, "SshPublicKeyBody");
    var userName :- Require(props, "UserName");
    Ok(Config(role, GetValue(props, "Policy"), serverId, sshKey, userName,
              GetOr(props, "HomeDirectory", Str("/" + render(userName)))))
  }

  /** `construct_physical_id`: f"{server_id}/{username}" */
  function PhysicalId(c: Config, render: Value -> string): string {
    render(c.serverId) + "/" + render(c.userName)
  }

  /**
   * Two users have the same physical id exactly when their server ids and
   * user names render the same, provided server ids contain no '/'.
   */
  lemma PhysicalIdInjective(a: Config, b: Config, render: Value -> string)
    requires '/' !in render(a.serverId) && '/' !in render(b.serverId)
    ensures PhysicalId(a, render) == PhysicalId(b, render) <==>
            render(a.serverId) == render(b.serverId) && render(a.userName) == render(b.userName)
  {
    if PhysicalId(a, render) == PhysicalId(b, render) {
      Strings.JoinPairInjective(render(a.serverId), render(a.userName), render(b.serverId), render(b.userName), '/');
    }
  }

  /** `build_params`: the four required parameters, then Policy when it is not None. */
  function Params(c: Config): (r: Props)
    ensures HasKey(r, "Policy") <==> !c.policy.Null?
    ensures !HasKey(r, "SshPublicKeyBody")
  {
    var r := [("HomeDirectory", c.homeDir), ("Role", c.role), ("ServerId", c.serverId), ("UserName", c.userName)] +
             (if c.policy.Null? then [] else [("Policy", c.policy)]);
    assert !c.policy.Null? ==> r[4].0 == "Policy";
    r
  }

  /** `create_user` gets the parameters plus the public key. */
  function CreateCall(c: Config): (call: ApiCall)
    ensures Get(call.args, "SshPublicKeyBody") == Some(c.sshKey)
  {
    var p := Params(c);
    GetAppend(p, [("SshPublicKeyBody", c.sshKey)], "SshPublicKeyBody");
    ApiCall("create_user", p + [("SshPublicKeyBody", c.sshKey)])
  }

  /** `update_user` gets the parameters alone: the key is only sent on create. */
  function UpdateCall(c: Config): (call: ApiCall)
    ensures !HasKey(call.args, "SshPublicKeyBody")
  {
    ApiCall("update_user", Params(c))
  }

  /** `delete_user` addresses the user by the properties, not by the physical id. */
  function DeleteCall(c: Config): ApiCall {
    ApiCall("delete_user", [("ServerId", c.serverId), ("UserName", c.userName)])
  }

  /** `get_attributes` */
  function Attributes(c: Config): Props {
    [("ServerId", c.serverId), ("UserName", c.userName)]
  }

  /** `create`: the physical id is set only once the user exists. */
  function Create(c: Config, id: Option<string>, api: Api, render: Value -> string): (o: Outcome<seq<ApiCall>>)
    ensures o.after == [CreateCall(c)]
    ensures o.ret.Returned? <==> api(CreateCall(c)).Ok?
    ensures o.ret.Returned? ==> o.id == Some(PhysicalId(c, render)) && o.ret.data == Some(Attributes(c))
    ensures o.ret.Raised? ==> o.id == id
  {
    match api(CreateCall(c))
    case Err(e) => Raise(Api(e), id, [CreateCall(c)])
    case Ok(_) => Return(Attributes(c), Some(PhysicalId(c, render)), [CreateCall(c)])
  }

  /**
   * `update`: a user whose physical id would change is created anew (the
   * old one is deleted afterwards by CloudFormation); otherwise it is
   * updated in place.
   */
  function Update(c: Config, id: string, api: Api, render: Value -> string): (o: Outcome<seq<ApiCall>>)
    ensures id != PhysicalId(c, render) ==> o == Create(c, Some(id), api, render)
    ensures id == PhysicalId(c, render) ==> o.after == [UpdateCall(c)] && o.id == Some(id)
    ensures id == PhysicalId(c, render) ==> (o.ret.Returned? <==> api(UpdateCall(c)).Ok?)
    ensures o.ret.Returned? ==> o.ret.data == Some(Attributes(c))
  {
    if id != PhysicalId(c, render) then Create(c, Some(id), api, render)
    else
      match api(UpdateCall(c))
      case Err(e) => Raise(Api(e), Some(id), [UpdateCall(c)])
      case Ok(_) => Return(Attributes(c), Some(id), [UpdateCall(c)])
  }

  /**
   * Updating the user that `prev` created changes it in place exactly when
   * the server id and user name stay the same; otherwise a new user is
   * created.
   */
  lemma UpdateInPlaceIff(prev: Config, c: Config, api: Api, render: Value -> string)
    requires '/' !in render(prev.serverId) && '/' !in render(c.serverId)
    ensures var o := Update(c, PhysicalId(prev, render), api, render);
      (o.after == [UpdateCall(c)] <==> render(prev.serverId) == render(c.serverId) && render(prev.userName) == render(c.userName)) &&
      (o.after != [UpdateCall(c)] ==> o.after == [CreateCall(c)])
  {
    PhysicalIdInjective(prev, c, render);
  }

  function Delete(c: Config, id: string, api: Api): (o: Outcome<seq<ApiCall>>)
    ensures o.after == [DeleteCall(c)] && o.id == Some(id)
    ensures o.ret.Returned? <==> api(DeleteCall(c)).Ok?
  {
    match api(DeleteCall(c))
    case Err(e) => Raise(Api(e), Some(id), [DeleteCall(c)])
    case Ok(_) => ReturnNone(Some(id), [DeleteCall(c)])
  }

  /** Delete removes the user that create made: the same server and user name. */
  lemma DeleteTargetsCreated(c: Config)
    ensures Get(DeleteCall(c).args, "ServerId") == Get(CreateCall(c).args, "ServerId") == Some(c.serverId)
    ensures Get(DeleteCall(c).args, "UserName") == Get(CreateCall(c).args, "UserName") == Some(c.userName)
  {
    var p := Params(c);
    var args := CreateCall(c).args;
    assert args[2] == ("ServerId", c.serverId) && args[3] == ("UserName", c.userName);
    assert args[0].0 != "ServerId" && args[1].0 != "ServerId";
    assert args[0].0 != "UserName" && args[1].0 != "UserName";
    GetHead(args, "ServerId");
    GetHead(args[1..], "ServerId");
    GetHead(args[2..], "ServerId");
    GetHead(args, "UserName");
    GetHead(args[1..], "UserName");
    GetHead(args[2..], "UserName");
    GetHead(args[3..], "UserName");
  }
}
