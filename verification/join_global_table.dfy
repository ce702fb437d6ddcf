/**
 * The provider that joins this region's DynamoDB table to a global table:
 * it creates the global table, or adds this region as a replica when the
 * global table exists, and takes the global table's ARN as physical id.
 */
module JoinGlobalTable {
  import opened Wrappers
  import opened Dicts
  import opened Values
  import opened Lifecycle

  /** What `validate` leaves behind: the popped table name and the properties without it. */
  datatype Config = Config(tableName: Value, rest: Props)

  /** Popping a key leaves nothing exactly when every entry has that key. */
  lemma {:induction false} RemoveEmpty(d: Props, k: string)
    ensures Remove(d, k) == [] <==> forall i :: 0 <= i < |d| ==> d[i].0 == k
    decreases |d|
  {
    if |d| > 0 {
      RemoveEmpty(d[1..], k);
      if d[0].0 != k {
        assert |[d[0]] + Remove(d[1..], k)| > 0;
      }
      assert forall i :: 1 <= i < |d| ==> d[i] == d[1..][i - 1];
    }
  }

  /**
   * `validate`: TableName is popped from the properties; a missing one, or
   * any other property left over, makes it return False.
   */
  function Validate(props: Props): (r: Result<Config, Error>)
    ensures r.Ok? <==> HasKey(props, "TableName") && forall i :: 0 <= i < |props| ==> props[i].0 == "TableName"
    ensures r.Err? ==> r.error == Invalid
    ensures r.Ok? ==> Get(props, "TableName") == Some(r.value.tableName) && r.value.rest == []
  {
    RemoveEmpty(props, "TableName");
    match Get(props, "TableName")
    case None => Err(Invalid)
    case Some(name) =>
      var rest := Remove(props, "TableName");
      if |rest| > 0 then Err(Invalid) else Ok(Config(name, rest))
  }

  function CreateCall(table: Value, region: string): ApiCall {
    ApiCall("create_global_table", [("GlobalTableName", table),
                                    ("ReplicationGroup", List([Obj([("RegionName", Str(region))])]))])
  }

  /** Adding this region as a replica of an existing global table. */
  function JoinCall(table: Value, region: string): ApiCall {
    ApiCall("update_global_table", [("GlobalTableName", table),
                                    ("ReplicaUpdates", List([Obj([("Create", Obj([("RegionName", Str(region))]))])]))])
  }

  /** Removing this region's replica. */
  function LeaveCall(table: Value, region: string): ApiCall {
    ApiCall("update_global_table", [("GlobalTableName", table),
                                    ("ReplicaUpdates", List([Obj([("Delete", Obj([("RegionName", Str(region))]))])]))])
  }

  const AlreadyJoined: string := "This region is already joined to the GlobalTable. Not taking ownership of this Join."

  /** `global_table['GlobalTableDescription']['GlobalTableArn']` */
  function Arn(response: Value): (r: Result<string, Error>)
    ensures r.Ok? <==> Index(response, "GlobalTableDescription").Ok? &&
                       Index(Index(response, "GlobalTableDescription").value, "GlobalTableArn").Ok? &&
                       Index(Index(response, "GlobalTableDescription").value, "GlobalTableArn").value.Str?
    ensures r.Ok? ==> Index(Index(response, "GlobalTableDescription").value, "GlobalTableArn").value == Str(r.value)
  {
    var description :- Index(response, "GlobalTableDescription");
    var arn :- Index(description, "GlobalTableArn");
    if arn.Str? then Ok(arn.s) else Err(TypeError("physical resource id"))
  }

  /** The physical id and return value once a request gave the global table's description. */
  function Finish(response: Value, id: Option<string>, sent: seq<ApiCall>): (o: Outcome<seq<ApiCall>>)
    ensures o.after == sent
    ensures o.ret.Returned? <==> Arn(response).Ok?
    ensures o.ret.Returned? ==> o.id == Some(Arn(response).value) && o.ret.data == Some([])
    ensures o.ret.Raised? ==> o.id == id
  {
    match Arn(response)
    case Err(e) => Raise(e, id, sent)
    case Ok(arn) => Return([], Some(arn), sent)
  }

  /**
   * `create`: create the global table with this region; when it exists
   * already, join it; when this region is already a replica, refuse to
   * take over the join.
   */
  function Create(table: Value, region: string, id: Option<string>, api: Api): (o: Outcome<seq<ApiCall>>)
    ensures api(CreateCall(table, region)).Ok? ==> o == Finish(api(CreateCall(table, region)).value, id, [CreateCall(table, region)])
    ensures api(CreateCall(table, region)) == Err(GlobalTableAlreadyExists) ==>
      o.after == [CreateCall(table, region), JoinCall(table, region)] &&
      (api(JoinCall(table, region)).Ok? ==> o == Finish(api(JoinCall(table, region)).value, id, o.after)) &&
      (api(JoinCall(table, region)) == Err(ReplicaAlreadyExists) ==> o == Raise(RuntimeError(AlreadyJoined), id, o.after))
    ensures o.ret.Returned? ==> o.id.Some?
    ensures o.ret.Raised? ==> o.id == id
  {
    var create := CreateCall(table, region);
    match api(create)
    case Ok(response) => Finish(response, id, [create])
    case Err(GlobalTableAlreadyExists) =>
      var join := JoinCall(table, region);
      (match api(join)
       case Ok(response) => Finish(response, id, [create, join])
       case Err(ReplicaAlreadyExists) => Raise(RuntimeError(AlreadyJoined), id, [create, join])
       case Err(e) => Raise(Api(e), id, [create, join]))
    case Err(e) => Raise(Api(e), id, [create])
  }

  /**
   * `update` as written: re-create when TableName changed, else nothing.
   * `props` are the properties as `validate` left them, without TableName.
   */
  function Update(cfg: Config, props: Props, oldProps: Props, id: string, changed: Changed, region: string, api: Api): (o: Outcome<seq<ApiCall>>)
    ensures changed(props, oldProps, "TableName") ==> o == Create(cfg.tableName, region, Some(id), api)
    ensures !changed(props, oldProps, "TableName") ==> o == Return([], Some(id), [])
  {
    if changed(props, oldProps, "TableName") then Create(cfg.tableName, region, Some(id), api)
    else Return([], Some(id), [])
  }

  /**
   * Since `validate` popped TableName, the update sees no TableName and,
   * with the library's change test, always finds it changed: an update
   * that keeps the table name re-creates, and with this region already
   * joined that fails with RuntimeError.
   */
  lemma UnchangedUpdateFails(props: Props, oldProps: Props, id: string, region: string, api: Api)
    requires Validate(props).Ok?
    requires Get(oldProps, "TableName") == Get(props, "TableName")
    requires api(CreateCall(Validate(props).value.tableName, region)) == Err(GlobalTableAlreadyExists)
    requires api(JoinCall(Validate(props).value.tableName, region)) == Err(ReplicaAlreadyExists)
    ensures var cfg := Validate(props).value;
      Update(cfg, cfg.rest, oldProps, id, ValueChanged, region, api).ret == Raised(RuntimeError(AlreadyJoined))
  {
    var cfg := Validate(props).value;
    assert ValueChanged(cfg.rest, oldProps, "TableName");
  }

  /**
   * The evidently intended update is `update` given the properties as the
   * template wrote them, before `validate` popped TableName: an update that
   * keeps the table name sends nothing and keeps the physical id, and one
   * that changes it re-creates.
   */
  lemma IntendedUpdateKeeps(props: Props, oldProps: Props, id: string, region: string, api: Api)
    requires Validate(props).Ok?
    ensures var cfg := Validate(props).value;
      var o := Update(cfg, props, oldProps, id, ValueChanged, region, api);
      (Get(oldProps, "TableName") == Get(props, "TableName") ==> o == Return([], Some(id), [])) &&
      (Get(oldProps, "TableName") != Get(props, "TableName") ==> o.after[0] == CreateCall(cfg.tableName, region))
  {
  }

  /** `delete`: leave the global table; a global table that is gone counts as success. */
  function Delete(table: Value, region: string, id: string, api: Api): (o: Outcome<seq<ApiCall>>)
    ensures o.after == [LeaveCall(table, region)] && o.id == Some(id)
    ensures o.ret.Returned? <==> api(LeaveCall(table, region)).Ok? || api(LeaveCall(table, region)) == Err(GlobalTableNotFound)
  {
    match api(LeaveCall(table, region))
    case Ok(_) => ReturnNone(Some(id), [LeaveCall(table, region)])
    case Err(GlobalTableNotFound) => ReturnNone(Some(id), [LeaveCall(table, region)])
    case Err(e) => Raise(Api(e), Some(id), [LeaveCall(table, region)])
  }

  /**
   * Delete undoes what create joined: the replica it removes is the one
   * create added, for the same table and region.
   */
  lemma DeleteLeavesJoined(table: Value, region: string)
    ensures var join := JoinCall(table, region).args;
      var leave := LeaveCall(table, region).args;
      join[0] == leave[0] && join[1].0 == leave[1].0 &&
      join[1].1.items[0].fields[0].1 == leave[1].1.items[0].fields[0].1 == Obj([("RegionName", Str(region))]) &&
      join[1].1.items[0].fields[0].0 == "Create" && leave[1].1.items[0].fields[0].0 == "Delete"
  {
  }
}
