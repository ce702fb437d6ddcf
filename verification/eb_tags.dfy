/**
 * The provider that sets tags on an Elastic Beanstalk environment. Create
 * and update both add the template's tags and return the list they sent;
 * delete leaves the tags, which go with the environment.
 */
module ElasticBeanstalkTags {
  import opened Wrappers
  import opened Dicts
  import opened Values
  import opened Lifecycle

  datatype Config = Config(environmentArn: Value, tags: Value)

  /** `validate`: EnvironmentArn and Tags are read with `[]`; a missing one is a KeyError. */
  function Validate(props: Props): (r: Result<Config, Error>)
    ensures r.Ok? <==> HasKey(props, "EnvironmentArn") && HasKey(props, "Tags")
    ensures !HasKey(props, "EnvironmentArn") ==> r == Err(KeyError("EnvironmentArn"))
    ensures HasKey(props, "EnvironmentArn") && !HasKey(props, "Tags") ==> r == Err(KeyError("Tags"))
    ensures r.Ok? ==> Some(r.value.environmentArn) == Get(props, "EnvironmentArn") && Some(r.value.tags) == Get(props, "Tags")
  {
    var arn :- Require(props, "EnvironmentArn");
    var tags :- Require(props, "Tags");
    Ok(Config(arn, tags))
  }

  /**
   * `tags_to_update`: one `{'Key': k, 'Value': v}` per entry of the tag
   * mapping, in its order; a value without `items()` is an AttributeError.
   */
  function TagsToUpdate(tags: Value): (r: Result<seq<Value>, Error>)
    ensures r.Ok? <==> tags.Obj?
    ensures r.Err? ==> r.error == AttributeError("items")
    ensures r.Ok? ==> |r.value| == |tags.fields|
    ensures r.Ok? ==> forall i :: 0 <= i < |tags.fields| ==> r.value[i] == Obj([("Key", Str(tags.fields[i].0)), ("Value", tags.fields[i].1)])
  {
    if tags.Obj? then Ok(PairList(tags.fields, "Key", "Value")) else Err(AttributeError("items"))
  }

  /** The list sent holds the tag mapping exactly: reading it back gives the mapping, in order. */
  lemma TagsRoundTrip(tags: Props)
    ensures FromPairList(TagsToUpdate(Obj(tags)).value, "Key", "Value") == tags
  {
    PairListRoundTrip(tags, "Key", "Value");
  }

  function UpdateCall(arn: Value, entries: seq<Value>): ApiCall {
    ApiCall("update_tags_for_resource", [("ResourceArn", arn), ("TagsToAdd", List(entries))])
  }

  /**
   * `update_tags`, which both `create` and `update` are: add the tags and
   * return them as TagsToUpdate.
   */
  function UpdateTags(cfg: Config, id: Option<string>, api: Api): (o: Outcome<seq<ApiCall>>)
    ensures o.id == id
    ensures !cfg.tags.Obj? ==> o == Raise(AttributeError("items"), id, [])
    ensures cfg.tags.Obj? ==> var entries := TagsToUpdate(cfg.tags).value;
      o.after == [UpdateCall(cfg.environmentArn, entries)] &&
      (o.ret.Returned? <==> api(UpdateCall(cfg.environmentArn, entries)).Ok?) &&
      (o.ret.Returned? ==> o.ret.data == Some([("TagsToUpdate", List(entries))]))
  {
    match TagsToUpdate(cfg.tags)
    case Err(e) => Raise(e, id, [])
    case Ok(entries) =>
      var call := UpdateCall(cfg.environmentArn, entries);
      match api(call)
      case Err(e) => Raise(Api(e), id, [call])
      case Ok(_) => Return([("TagsToUpdate", List(entries))], id, [call])
  }

  /** `delete`: nothing sent. */
  function Delete(id: string): (o: Outcome<seq<ApiCall>>)
    ensures o.ret == Returned(None) && o.after == [] && o.id == Some(id)
  {
    ReturnNone(Some(id), [])
  }
}
