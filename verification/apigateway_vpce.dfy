/**
 * The provider that associates a VPC endpoint with an API Gateway REST API:
 * create adds the endpoint to the API's endpoint configuration, delete
 * removes it, and a change of either id replaces the association.
 */
module AssociateVpcEndpoint {
  import opened Wrappers
  import opened Dicts
  import opened Values
  import opened Lifecycle
  import Strings

  datatype Config = Config(restApiId: Value, vpcEndpointId: Value)

  /** `validate`: RestApiId and VpcEndpointId are read with `[]`. */
  function Validate(props: Props): (r: Result<Config, Error>)
    ensures r.Ok? <==> HasKey(props, "RestApiId") && HasKey(props, "VpcEndpointId")
    ensures !HasKey(props, "RestApiId") ==> r == Err(KeyError("RestApiId"))
    ensures HasKey(props, "RestApiId") && !HasKey(props, "VpcEndpointId") ==> r == Err(KeyError("VpcEndpointId"))
    ensures r.Ok? ==> Some(r.value.restApiId) == Get(props, "RestApiId") && Some(r.value.vpcEndpointId) == Get(props, "VpcEndpointId")
  {
    var api :- Require(props, "RestApiId");
    var endpoint :- Require(props, "VpcEndpointId");
    Ok(Config(api, endpoint))
  }

  /** `rest_api_id + '/' + vpc_endpoint_id`; concatenating anything but strings is a TypeError. */
  function PhysicalId(cfg: Config): (r: Result<string, Error>)
    ensures r.Ok? <==> cfg.restApiId.Str? && cfg.vpcEndpointId.Str?
    ensures r.Ok? ==> r.value == cfg.restApiId.s + "/" + cfg.vpcEndpointId.s
  {
    if cfg.restApiId.Str? && cfg.vpcEndpointId.Str? then Ok(cfg.restApiId.s + "/" + cfg.vpcEndpointId.s)
    else Err(TypeError("can only concatenate str"))
  }

  /** API ids contain no '/', so the physical id names one association. */
  lemma PhysicalIdInjective(a: Config, b: Config)
    requires PhysicalId(a).Ok? && PhysicalId(a) == PhysicalId(b)
    requires '/' !in a.restApiId.s && '/' !in b.restApiId.s
    ensures a == b
  {
    assert PhysicalId(a).value == a.restApiId.s + ['/'] + a.vpcEndpointId.s;
    assert PhysicalId(b).value == b.restApiId.s + ['/'] + b.vpcEndpointId.s;
    Strings.JoinPairInjective(a.restApiId.s, a.vpcEndpointId.s, b.restApiId.s, b.vpcEndpointId.s, '/');
  }

  const EndpointsPath: string := "/endpointConfiguration/vpcEndpointIds"

  /** `update_rest_api` with one patch operation on the API's endpoint list. */
  function PatchCall(cfg: Config, op: string): ApiCall {
    ApiCall("update_rest_api", [("restApiId", cfg.restApiId),
                                ("patchOperations", List([Obj([("op", Str(op)), ("path", Str(EndpointsPath)),
                                                               ("value", cfg.vpcEndpointId)])]))])
  }

  /**
   * `create`: the physical id is set first, then the endpoint is added; a
   * failing request leaves the new id in place.
   */
  function Create(cfg: Config, id: Option<string>, api: Api): (o: Outcome<seq<ApiCall>>)
    ensures PhysicalId(cfg).Err? ==> o == Raise(PhysicalId(cfg).error, id, [])
    ensures PhysicalId(cfg).Ok? ==> o.id == Some(PhysicalId(cfg).value) && o.after == [PatchCall(cfg, "add")]
    ensures o.ret.Returned? <==> PhysicalId(cfg).Ok? && api(PatchCall(cfg, "add")).Ok?
    ensures o.ret.Returned? ==> o.ret.data == Some([])
  {
    match PhysicalId(cfg)
    case Err(e) => Raise(e, id, [])
    case Ok(newId) =>
      var call := PatchCall(cfg, "add");
      match api(call)
      case Err(e) => Raise(Api(e), Some(newId), [call])
      case Ok(_) => Return([], Some(newId), [call])
  }

  /**
   * `update`: a change of either id replaces the association (CloudFormation
   * then deletes the old one); otherwise nothing is sent and the id stays.
   */
  function Update(cfg: Config, props: Props, oldProps: Props, id: string, changed: Changed, api: Api): (o: Outcome<seq<ApiCall>>)
    ensures changed(props, oldProps, "RestApiId") || changed(props, oldProps, "VpcEndpointId") ==> o == Create(cfg, Some(id), api)
    ensures !changed(props, oldProps, "RestApiId") && !changed(props, oldProps, "VpcEndpointId") ==> o == Return([], Some(id), [])
  {
    if changed(props, oldProps, "RestApiId") || changed(props, oldProps, "VpcEndpointId") then Create(cfg, Some(id), api)
    else Return([], Some(id), [])
  }

  /** An update sends a request exactly when one of the two ids changed, and then the add. */
  lemma UpdateSendsIffChanged(cfg: Config, props: Props, oldProps: Props, id: string, changed: Changed, api: Api)
    requires PhysicalId(cfg).Ok?
    ensures var o := Update(cfg, props, oldProps, id, changed, api);
      (o.after != [] <==> changed(props, oldProps, "RestApiId") || changed(props, oldProps, "VpcEndpointId")) &&
      (o.after != [] ==> o.after == [PatchCall(cfg, "add")] && o.id == Some(PhysicalId(cfg).value))
  {
  }

  /** `delete`: remove the endpoint from the API's list. */
  function Delete(cfg: Config, id: string, api: Api): (o: Outcome<seq<ApiCall>>)
    ensures o.after == [PatchCall(cfg, "remove")] && o.id == Some(id)
    ensures o.ret.Returned? <==> api(PatchCall(cfg, "remove")).Ok?
  {
    var call := PatchCall(cfg, "remove");
    match api(call)
    case Err(e) => Raise(Api(e), Some(id), [call])
    case Ok(_) => ReturnNone(Some(id), [call])
  }

  /**
   * Delete undoes create: it patches the same API, path and endpoint, with
   * `remove` where create had `add`.
   */
  lemma DeleteUndoesCreate(cfg: Config, id: Option<string>, api: Api)
    requires Create(cfg, id, api).ret.Returned?
    ensures var added := Create(cfg, id, api).after[0];
      var removed := Delete(cfg, Create(cfg, id, api).id.value, api).after[0];
      added.args[0] == removed.args[0] &&
      added.args[1].1.items[0].fields[1..] == removed.args[1].1.items[0].fields[1..] ==
        [("path", Str(EndpointsPath)), ("value", cfg.vpcEndpointId)] &&
      added.args[1].1.items[0].fields[0] == ("op", Str("add")) &&
      removed.args[1].1.items[0].fields[0] == ("op", Str("remove"))
  {
  }
}
