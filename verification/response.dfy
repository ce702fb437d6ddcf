/**
 * `finish_function_nojson` of the instance waiter and of the stack tags
 * provider: the response document sent back to CloudFormation, with the
 * outputs as a plain mapping rather than a JSON string.
 */
module Response {
  import opened Wrappers
  import opened Dicts
  import opened Values
  import opened Lifecycle

  const Success: string := "SUCCESS"
  const Failed: string := "FAILED"

  /** The response document's fields. */
  datatype Reply = Reply(status: string, reason: string, physicalResourceId: string,
                         stackId: Value, requestId: Value, logicalResourceId: Value, data: Props)

  function DefaultReason(logStream: string): string {
    "See the details in CloudWatch Log Stream: " + logStream
  }

  /**
   * The response for a finished request: the physical id, or the log stream
   * when there is none; the failure reason, or a note naming the log stream
   * when it is missing or empty; the request's identifiers copied from the
   * event; the outputs copied entry by entry. With `raiseOnFailure` a
   * failed request raises its reason instead of responding.
   */
  function FinishNoJson(status: string, failureReason: Option<string>, id: Option<string>, outputs: Props,
                        logStream: string, event: Props, raiseOnFailure: bool): (r: Result<Reply, Error>)
    ensures r.Ok? <==> HasKey(event, "StackId") && HasKey(event, "RequestId") && HasKey(event, "LogicalResourceId") &&
                       !(raiseOnFailure && status == Failed)
    ensures r.Ok? ==> r.value.status == status
    ensures r.Ok? ==> r.value.physicalResourceId == if id.Some? then id.value else logStream
    ensures r.Ok? ==> r.value.reason == if failureReason.Some? && failureReason.value != "" then failureReason.value else DefaultReason(logStream)
    ensures r.Ok? ==> Get(event, "StackId") == Some(r.value.stackId) && Get(event, "RequestId") == Some(r.value.requestId) &&
                      Get(event, "LogicalResourceId") == Some(r.value.logicalResourceId)
    ensures !HasKey(event, "StackId") ==> r == Err(KeyError("StackId"))
    ensures HasKey(event, "StackId") && HasKey(event, "RequestId") && HasKey(event, "LogicalResourceId") &&
            raiseOnFailure && status == Failed ==>
              r == Err(Exception(if failureReason.Some? then failureReason.value else "None"))
  {
    var physicalId := if id.Some? then id.value else logStream;
    var reason := if failureReason.Some? && failureReason.value != "" then failureReason.value else DefaultReason(logStream);
    var data := Dicts.Update([], outputs);
    var stackId :- Require(event, "StackId");
    var requestId :- Require(event, "RequestId");
    var logicalId :- Require(event, "LogicalResourceId");
    if raiseOnFailure && status == Failed then Err(Exception(if failureReason.Some? then failureReason.value else "None"))
    else Ok(Reply(status, reason, physicalId, stackId, requestId, logicalId, data))
  }

  /** The response's Data holds exactly the resource's outputs. */
  lemma DataIsOutputs(status: string, failureReason: Option<string>, id: Option<string>, outputs: Props,
                      logStream: string, event: Props, raiseOnFailure: bool, k: string)
    requires UniqueKeys(outputs)
    requires FinishNoJson(status, failureReason, id, outputs, logStream, event, raiseOnFailure).Ok?
    ensures Get(FinishNoJson(status, failureReason, id, outputs, logStream, event, raiseOnFailure).value.data, k) == Get(outputs, k)
  {
    UpdateGet([], outputs, k);
  }

  /**
   * Finishing a request: build the response and hand it to `send`. A
   * failure to send is logged and swallowed; the result says whether the
   * response went out.
   */
  function Respond(status: string, failureReason: Option<string>, id: Option<string>, outputs: Props,
                   logStream: string, event: Props, raiseOnFailure: bool, send: Reply -> bool): (r: Result<bool, Error>)
    ensures r.Err? <==> FinishNoJson(status, failureReason, id, outputs, logStream, event, raiseOnFailure).Err?
    ensures r.Err? ==> r.error == FinishNoJson(status, failureReason, id, outputs, logStream, event, raiseOnFailure).error
    ensures r.Ok? ==> r.value == send(FinishNoJson(status, failureReason, id, outputs, logStream, event, raiseOnFailure).value)
  {
    var reply :- FinishNoJson(status, failureReason, id, outputs, logStream, event, raiseOnFailure);
    Ok(send(reply))
  }

  /** Only a failed request under RAISE_ON_FAILURE raises; a failed send never does. */
  lemma OnlyFailureRaises(status: string, failureReason: Option<string>, id: Option<string>, outputs: Props,
                          logStream: string, event: Props, raiseOnFailure: bool, send: Reply -> bool)
    requires HasKey(event, "StackId") && HasKey(event, "RequestId") && HasKey(event, "LogicalResourceId")
    ensures Respond(status, failureReason, id, outputs, logStream, event, raiseOnFailure, send).Err? <==>
            raiseOnFailure && status == Failed
  {
  }
}
