/**
 * The provider that writes an S3 object from a template string (or a JSON
 * rendering of any other value) and takes `<Bucket>/<Key>` as physical id.
 */
module S3Object {
  import opened Wrappers
  import opened Dicts
  import opened Values
  import opened Lifecycle
  import Strings

  /** The object to write; `body` is already text. */
  datatype Config = Config(region: Value, bucket: Value, key: Value, body: string, metadata: Value)

  /**
   * `validate` as written: after reading Region, Bucket, Key and Body it
   * calls the property mapping itself, `resource_properties('ObjectMetadata',
   * {})`, and a mapping is not callable.
   */
  function Validate(props: Props): (r: Result<Config, Error>)
    ensures !HasKey(props, "Bucket") ==> r == Err(KeyError("Bucket"))
    ensures HasKey(props, "Bucket") && !HasKey(props, "Key") ==> r == Err(KeyError("Key"))
    ensures HasKey(props, "Bucket") && HasKey(props, "Key") ==> r == Err(TypeError("'dict' object is not callable"))
  {
    var bucket :- Require(props, "Bucket");
    var key :- Require(props, "Key");
    Err(TypeError("'dict' object is not callable"))
  }

  /** No properties at all get past `validate` as written. */
  lemma ValidateAlwaysFails(props: Props)
    ensures Validate(props).Err?
    ensures Validate(props).error.TypeError? || Validate(props).error.KeyError?
  {
  }

  /**
   * The evidently intended `validate`: ObjectMetadata read with `get`,
   * defaulting to an empty mapping. Region defaults to the Lambda's region,
   * Body to the empty string, and a Body that is not a string is written
   * as its JSON text (`dumps` stands for `json.dumps`).
   */
  function ValidateIntended(props: Props, region: string, dumps: Value -> string): (r: Result<Config, Error>)
    ensures r.Ok? <==> HasKey(props, "Bucket") && HasKey(props, "Key")
    ensures !HasKey(props, "Bucket") ==> r == Err(KeyError("Bucket"))
    ensures HasKey(props, "Bucket") && !HasKey(props, "Key") ==> r == Err(KeyError("Key"))
    ensures r.Ok? ==> Some(r.value.bucket) == Get(props, "Bucket") && Some(r.value.key) == Get(props, "Key")
    ensures r.Ok? ==> r.value.region == GetOr(props, "Region", Str(region))
    ensures r.Ok? ==> r.value.metadata == GetOr(props, "ObjectMetadata", Obj([]))
    ensures r.Ok? && !HasKey(props, "Body") ==> r.value.body == ""
    ensures r.Ok? && HasKey(props, "Body") ==>
      r.value.body == if GetValue(props, "Body").Str? then GetValue(props, "Body").s else dumps(GetValue(props, "Body"))
  {
    var bucket :- Require(props, "Bucket");
    var key :- Require(props, "Key");
    var body := GetOr(props, "Body", Str(""));
    Ok(Config(GetOr(props, "Region", Str(region)), bucket, key,
              if body.Str? then body.s else dumps(body), GetOr(props, "ObjectMetadata", Obj([]))))
  }

  /** An S3 client in the given region. */
  type RegionalApi = (Value, ApiCall) -> Result<Value, ApiError>

  /** `put_object`; the body's UTF-8 encoding is left abstract. */
  function PutCall(cfg: Config): ApiCall {
    ApiCall("put_object", [("Bucket", cfg.bucket), ("Key", cfg.key), ("Body", Str(cfg.body)), ("Metadata", cfg.metadata)])
  }

  function DeleteCall(cfg: Config): ApiCall {
    ApiCall("delete_object", [("Bucket", cfg.bucket), ("Key", cfg.key)])
  }

  /** `f"{bucket}/{key}"`; `render` stands for Python's `str()`. */
  function PhysicalId(cfg: Config, render: Value -> string): string {
    render(cfg.bucket) + "/" + render(cfg.key)
  }

  /**
   * `create` (and `update`, which is the same): the physical id is set
   * first, then the object written in the configured region; nothing is
   * returned.
   */
  function Create(cfg: Config, api: RegionalApi, render: Value -> string): (o: Outcome<seq<(Value, ApiCall)>>)
    ensures o.id == Some(PhysicalId(cfg, render))
    ensures o.after == [(cfg.region, PutCall(cfg))]
    ensures o.ret.Returned? <==> api(cfg.region, PutCall(cfg)).Ok?
    ensures o.ret.Returned? ==> o.ret.data == None
  {
    var call := PutCall(cfg);
    match api(cfg.region, call)
    case Err(e) => Raise(Api(e), Some(PhysicalId(cfg, render)), [(cfg.region, call)])
    case Ok(_) => ReturnNone(Some(PhysicalId(cfg, render)), [(cfg.region, call)])
  }

  function Delete(cfg: Config, id: string, api: RegionalApi): (o: Outcome<seq<(Value, ApiCall)>>)
    ensures o.after == [(cfg.region, DeleteCall(cfg))] && o.id == Some(id)
    ensures o.ret.Returned? <==> api(cfg.region, DeleteCall(cfg)).Ok?
  {
    var call := DeleteCall(cfg);
    match api(cfg.region, call)
    case Err(e) => Raise(Api(e), Some(id), [(cfg.region, call)])
    case Ok(_) => ReturnNone(Some(id), [(cfg.region, call)])
  }

  /**
   * With the intended `validate`, the object deleted is the one written:
   * same region, bucket and key; and for string bucket and key the
   * physical id is `<Bucket>/<Key>`, naming one object when the bucket
   * name has no '/'.
   */
  lemma DeleteRemovesWritten(props: Props, region: string, dumps: Value -> string, id: string,
                             api: RegionalApi, render: Value -> string)
    requires ValidateIntended(props, region, dumps).Ok?
    ensures var cfg := ValidateIntended(props, region, dumps).value;
      var put := Create(cfg, api, render).after[0];
      var del := Delete(cfg, id, api).after[0];
      put.0 == del.0 && put.1.args[..2] == del.1.args &&
      Some(put.1.args[0].1) == Get(props, "Bucket") && Some(put.1.args[1].1) == Get(props, "Key")
  {
  }

  /** The physical id names one bucket and key, for bucket names without '/'. */
  lemma PhysicalIdInjective(a: Config, b: Config, render: Value -> string)
    requires PhysicalId(a, render) == PhysicalId(b, render)
    requires '/' !in render(a.bucket) && '/' !in render(b.bucket)
    ensures render(a.bucket) == render(b.bucket) && render(a.key) == render(b.key)
  {
    assert PhysicalId(a, render) == render(a.bucket) + ['/'] + render(a.key);
    assert PhysicalId(b, render) == render(b.bucket) + ['/'] + render(b.key);
    Strings.JoinPairInjective(render(a.bucket), render(a.key), render(b.bucket), render(b.key), '/');
  }
}
