/**
 * The provider that manages an Elastic Transcoder pipeline. The pipeline's
 * id is the physical id; update and delete address the pipeline by it.
 */
module ElasticTranscoderPipeline {
  import opened Wrappers
  import opened Dicts
  import opened Values
  import opened Lifecycle

  datatype Config = Config(name: Value, inputBucket: Value, outputBucket: Value, role: Value, notifications: Value)

  const MaxNameLength: nat := 40
  const NameTooLong: string := "Pipeline Name must be <=40 characters"

  /** Python's `len(v)`; values without a length are a TypeError. */
  function Len(v: Value): (r: Option<nat>)
    ensures r.Some? <==> v.Str? || v.List? || v.Obj?
  {
    match v
    case Str(s) => Some(|s|)
    case List(items) => Some(|items|)
    case Obj(fields) => Some(|fields|)
    case _ => None
  }

  /**
   * `validate`: a missing Name, InputBucket, OutputBucket, Role or
   * Notifications makes it return False. A Name longer than 40 raises
   * ValueError, which the handler in `validate` does not catch; so does the
   * TypeError of a Name without a length.
   */
  function Validate(props: Props): (r: Result<Config, Error>)
    ensures r.Ok? <==> HasKey(props, "Name") && Len(GetValue(props, "Name")).Some? &&
                       Len(GetValue(props, "Name")).value <= MaxNameLength &&
                       HasKey(props, "InputBucket") && HasKey(props, "OutputBucket") &&
                       HasKey(props, "Role") && HasKey(props, "Notifications")
    ensures HasKey(props, "Name") && Len(GetValue(props, "Name")).Some? && Len(GetValue(props, "Name")).value > MaxNameLength ==>
      r == Err(ValueError(NameTooLong))
    ensures r.Err? && r.error != ValueError(NameTooLong) && !r.error.TypeError? ==> r.error == Invalid
    ensures r.Ok? ==> r.value == Config(GetValue(props, "Name"), GetValue(props, "InputBucket"), GetValue(props, "OutputBucket"),
                                        GetValue(props, "Role"), GetValue(props, "Notifications"))
  {
    match Get(props, "Name")
    case None => Err(Invalid)
    case Some(name) =>
      match Len(name)
      case None => Err(TypeError("object has no len()"))
      case Some(n) =>
        if n > MaxNameLength then Err(ValueError(NameTooLong))
        else
          match (Get(props, "InputBucket"), Get(props, "OutputBucket"), Get(props, "Role"), Get(props, "Notifications"))
          case (Some(input), Some(output), Some(role), Some(notifications)) =>
            Ok(Config(name, input, output, role, notifications))
          case _ => Err(Invalid)
  }

  function Settings(cfg: Config): Props {
    [("Name", cfg.name), ("InputBucket", cfg.inputBucket), ("OutputBucket", cfg.outputBucket),
     ("Role", cfg.role), ("Notifications", cfg.notifications)]
  }

  function CreateCall(cfg: Config): ApiCall {
    ApiCall("create_pipeline", Settings(cfg))
  }

  function UpdateCall(cfg: Config, id: string): ApiCall {
    ApiCall("update_pipeline", [("Id", Str(id))] + Settings(cfg))
  }

  function DeleteCall(id: string): ApiCall {
    ApiCall("delete_pipeline", [("Id", Str(id))])
  }

  /** `response['Pipeline']['Id']` */
  function PipelineId(response: Value): (r: Result<string, Error>)
    ensures r.Ok? ==> Index(response, "Pipeline").Ok? && Index(Index(response, "Pipeline").value, "Id") == Ok(Str(r.value))
  {
    var pipeline :- Index(response, "Pipeline");
    var id :- Index(pipeline, "Id");
    if id.Str? then Ok(id.s) else Err(TypeError("physical resource id"))
  }

  /** `create`: the new pipeline's id becomes the physical id. */
  function Create(cfg: Config, id: Option<string>, api: Api): (o: Outcome<seq<ApiCall>>)
    ensures o.after == [CreateCall(cfg)]
    ensures o.ret.Returned? <==> api(CreateCall(cfg)).Ok? && PipelineId(api(CreateCall(cfg)).value).Ok?
    ensures o.ret.Returned? ==> o.ret.data == Some([]) && o.id == Some(PipelineId(api(CreateCall(cfg)).value).value)
    ensures o.ret.Raised? ==> o.id == id
  {
    var call := CreateCall(cfg);
    match api(call)
    case Err(e) => Raise(Api(e), id, [call])
    case Ok(response) =>
      match PipelineId(response)
      case Err(e) => Raise(e, id, [call])
      case Ok(pipelineId) => Return([], Some(pipelineId), [call])
  }

  /** `update`: every setting is sent for the pipeline the physical id names; the id stays. */
  function Update(cfg: Config, id: string, api: Api): (o: Outcome<seq<ApiCall>>)
    ensures o.after == [UpdateCall(cfg, id)] && o.id == Some(id)
    ensures o.ret.Returned? <==> api(UpdateCall(cfg, id)).Ok?
    ensures o.ret.Returned? ==> o.ret.data == Some([])
  {
    var call := UpdateCall(cfg, id);
    match api(call)
    case Err(e) => Raise(Api(e), Some(id), [call])
    case Ok(_) => Return([], Some(id), [call])
  }

  function Delete(id: string, api: Api): (o: Outcome<seq<ApiCall>>)
    ensures o.after == [DeleteCall(id)] && o.id == Some(id)
    ensures o.ret.Returned? <==> api(DeleteCall(id)).Ok?
  {
    var call := DeleteCall(id);
    match api(call)
    case Err(e) => Raise(Api(e), Some(id), [call])
    case Ok(_) => ReturnNone(Some(id), [call])
  }

  /**
   * Later requests address what create made: update and delete send the id
   * of the pipeline create returned, and update sends the settings create did.
   */
  lemma LaterCallsTargetCreated(cfg: Config, cfg': Config, id: Option<string>, api: Api)
    requires Create(cfg, id, api).ret.Returned?
    ensures var created := PipelineId(api(CreateCall(cfg)).value).value;
      var newId := Create(cfg, id, api).id.value;
      newId == created &&
      Update(cfg', newId, api).after[0].args == [("Id", Str(created))] + CreateCall(cfg').args &&
      Delete(newId, api).after[0].args == [("Id", Str(created))]
  {
  }
}
