/**
 * The instance waiter: a resource whose creation (and update) waits until
 * every given EC2 instance reports the state "running", or gives up when
 * the Lambda is about to time out. Nothing is deleted.
 *
 * The answers to `describe_instance_status` are an oracle indexed by round
 * and by the ids still waited for, which are what the request asks about.
 */
module StartedWaiter {
  import opened Wrappers
  import opened Dicts
  import opened Values
  import opened Lifecycle
  import Polling

  /** The answer to round `k`'s `describe_instance_status(InstanceIds=list(remaining))`. */
  type DescribeStatus = (nat, set<Value>) -> Result<Value, ApiError>

  /** Whether Python can put the value in a set. */
  predicate Hashable(v: Value) {
    !v.List? && !v.Obj?
  }

  /**
   * `validate`: InstanceIds is a list of ids or a single id; without it the
   * properties are invalid. An id that cannot go into a set raises.
   */
  function Validate(props: Props): (r: Result<set<Value>, Error>)
    ensures !HasKey(props, "InstanceIds") ==> r == Err(Invalid)
    ensures r.Ok? ==> HasKey(props, "InstanceIds")
    ensures r.Ok? && GetValue(props, "InstanceIds").List? ==>
      forall v :: v in r.value <==> v in GetValue(props, "InstanceIds").items
    ensures r.Ok? && !GetValue(props, "InstanceIds").List? ==> r.value == {GetValue(props, "InstanceIds")}
    ensures r.Err? && HasKey(props, "InstanceIds") ==> r.error.TypeError?
  {
    if !HasKey(props, "InstanceIds") then Err(Invalid)
    else
      var ids := GetValue(props, "InstanceIds");
      if ids.List? then
        if forall i :: 0 <= i < |ids.items| ==> Hashable(ids.items[i])
        then Ok(set i | 0 <= i < |ids.items| :: ids.items[i])
        else Err(TypeError("unhashable type"))
      else if Hashable(ids) then Ok({ids})
      else Err(TypeError("unhashable type"))
  }

  /** `instance['InstanceId']` and `instance['InstanceState']['Name']` of one status. */
  function IdAndState(instance: Value): Result<(Value, Value), Error> {
    var id :- Index(instance, "InstanceId");
    var st :- Index(instance, "InstanceState");
    var name :- Index(st, "Name");
    Ok((id, name))
  }

  /** The ids the statuses report as running. */
  function RunningIds(statuses: seq<Value>): set<Value>
    decreases |statuses|
  {
    if |statuses| == 0 then {}
    else
      var head := IdAndState(statuses[0]);
      (if head.Ok? && head.value.1 == Str("running") then {head.value.0} else {}) + RunningIds(statuses[1..])
  }

  predicate ReportsRunning(status: Value, id: Value) {
    IdAndState(status) == Ok((id, Str("running")))
  }

  /** An id is running exactly when some status reports it so. */
  lemma {:induction false} RunningIdsMembers(statuses: seq<Value>, id: Value)
    ensures id in RunningIds(statuses) <==>
      exists i :: 0 <= i < |statuses| && ReportsRunning(statuses[i], id)
    decreases |statuses|
  {
    if |statuses| > 0 {
      RunningIdsMembers(statuses[1..], id);
      if exists i :: 0 <= i < |statuses| && ReportsRunning(statuses[i], id) {
        var i :| 0 <= i < |statuses| && ReportsRunning(statuses[i], id);
        if i > 0 {
          assert statuses[1..][i - 1] == statuses[i];
        }
      }
      if exists i :: 0 <= i < |statuses[1..]| && ReportsRunning(statuses[1..][i], id) {
        var i :| 0 <= i < |statuses[1..]| && ReportsRunning(statuses[1..][i], id);
        assert statuses[1..][i] == statuses[i + 1];
      }
    }
  }

  /**
   * The loop over one answer's statuses: each running instance is taken off
   * the ids still waited for; `set.remove` raises KeyError for one that is
   * not (or no longer) there.
   */
  function TakeRunning(statuses: seq<Value>, remaining: set<Value>): (r: Result<set<Value>, Error>)
    ensures r.Ok? ==> r.value == remaining - RunningIds(statuses)
    ensures r.Ok? ==> forall i :: 0 <= i < |statuses| ==> IdAndState(statuses[i]).Ok?
    decreases |statuses|
  {
    if |statuses| == 0 then Ok(remaining)
    else
      var head :- IdAndState(statuses[0]);
      var running := head.1 == Str("running");
      if running && head.0 !in remaining then Err(KeyError("instance id"))
      else
        var remaining' := if running then remaining - {head.0} else remaining;
        var rest :- TakeRunning(statuses[1..], remaining');
        assert RunningIds(statuses) == (if running then {head.0} else {}) + RunningIds(statuses[1..]);
        assert forall i :: 1 <= i < |statuses| ==> statuses[1..][i - 1] == statuses[i];
        Ok(rest)
  }

  /** Statuses whose running ids are distinct and all still waited for pass the loop. */
  lemma {:induction false} TakeRunningSucceeds(statuses: seq<Value>, remaining: set<Value>)
    requires forall i :: 0 <= i < |statuses| ==> IdAndState(statuses[i]).Ok?
    requires forall i :: 0 <= i < |statuses| && IdAndState(statuses[i]).value.1 == Str("running") ==>
      IdAndState(statuses[i]).value.0 in remaining
    requires forall i, j :: (0 <= i < j < |statuses| && IdAndState(statuses[i]).value.1 == Str("running") &&
                             IdAndState(statuses[j]).value.1 == Str("running")) ==>
      IdAndState(statuses[i]).value.0 != IdAndState(statuses[j]).value.0
    ensures TakeRunning(statuses, remaining).Ok?
    decreases |statuses|
  {
    if |statuses| > 0 {
      var (id, state) := IdAndState(statuses[0]).value;
      var remaining' := if state == Str("running") then remaining - {id} else remaining;
      var tail := statuses[1..];
      forall i | 0 <= i < |tail| && IdAndState(tail[i]).value.1 == Str("running")
        ensures IdAndState(tail[i]).value.0 in remaining'
      {
        assert tail[i] == statuses[i + 1];
      }
      forall i, j | 0 <= i < j < |tail| && IdAndState(tail[i]).value.1 == Str("running") &&
                    IdAndState(tail[j]).value.1 == Str("running")
        ensures IdAndState(tail[i]).value.0 != IdAndState(tail[j]).value.0
      {
        assert tail[i] == statuses[i + 1] && tail[j] == statuses[j + 1];
      }
      TakeRunningSucceeds(tail, remaining');
    }
  }

  /** One round: ask about the ids still waited for and take off the running ones. */
  function Round(describe: DescribeStatus, k: nat, remaining: set<Value>): (r: Result<set<Value>, Error>)
    ensures r.Ok? ==> describe(k, remaining).Ok? && r.value <= remaining
  {
    match describe(k, remaining)
    case Err(e) => Err(Api(e))
    case Ok(status) =>
      var statuses :- Index(status, "InstanceStatuses");
      if statuses.List? then TakeRunning(statuses.items, remaining) else Err(TypeError("not iterable"))
  }

  function RoundStep(describe: DescribeStatus): (nat, set<Value>) -> Result<set<Value>, Error> {
    (k: nat, remaining: set<Value>) => Round(describe, k, remaining)
  }

  predicate AllRunning(remaining: set<Value>) {
    remaining == {}
  }

  const Timeout: Error := TimeoutError("Lambda is about to timeout")

  /** Round `k`, asked about `remaining`, reported `id` as running. */
  ghost predicate ReportedRunning(describe: DescribeStatus, k: nat, remaining: set<Value>, id: Value) {
    describe(k, remaining).Ok? && Index(describe(k, remaining).value, "InstanceStatuses").Ok? &&
    Index(describe(k, remaining).value, "InstanceStatuses").value.List? &&
    id in RunningIds(Index(describe(k, remaining).value, "InstanceStatuses").value.items)
  }

  /**
   * `create` (and `update`): wait until no id is left, then return the
   * InstanceIds property verbatim. With no ids nothing is asked. Each round
   * first prints `", ".join(remaining)`, so an id that is not a string
   * raises TypeError in the first round, before anything is asked; later
   * rounds join subsets of those ids and cannot raise there.
   */
  function Create(props: Props, ids: set<Value>, describe: DescribeStatus, cost: nat -> nat, left: int): (r: Result<Props, Error>)
    ensures r.Ok? ==> r.value == [("InstanceIds", GetValue(props, "InstanceIds"))]
    ensures ids == {} ==> r.Ok?
    ensures (exists v :: v in ids && !v.Str?) ==> r == Err(TypeError(JoinNonString))
  {
    if ids == {} then Ok([("InstanceIds", GetValue(props, "InstanceIds"))])
    else if exists v :: v in ids && !v.Str? then Err(TypeError(JoinNonString))
    else
      var _ :- Polling.Poll(RoundStep(describe), AllRunning, Timeout, cost, 0, ids, left);
      Ok([("InstanceIds", GetValue(props, "InstanceIds"))])
  }

  const JoinNonString: string := "sequence item: expected str instance"

  /**
   * When the wait ends, every id was reported running by some round, asked
   * about a set of ids that still held it.
   */
  lemma {:induction false} PollSawAllRunning(describe: DescribeStatus, cost: nat -> nat, k: nat, s: set<Value>, left: int)
    requires Polling.Poll(RoundStep(describe), AllRunning, Timeout, cost, k, s, left).Ok?
    ensures forall id :: id in s ==> exists j: nat, rem :: k <= j && id in rem && ReportedRunning(describe, j, rem, id)
    decreases if left < 0 then 0 else left + 1
  {
    var step := RoundStep(describe);
    assert step(k, s) == Round(describe, k, s);
    var s' := step(k, s).value;
    var status := describe(k, s).value;
    forall id | id in s && id !in s' ensures ReportedRunning(describe, k, s, id) {
    }
    if !AllRunning(s') {
      PollSawAllRunning(describe, cost, k + 1, s', left - Polling.PollIntervalMs - cost(k));
      forall id | id in s' ensures exists j: nat, rem :: k <= j && id in rem && ReportedRunning(describe, j, rem, id) {
        var j: nat, rem :| k + 1 <= j && id in rem && ReportedRunning(describe, j, rem, id);
      }
    }
  }

  /** A successful wait saw every instance running. */
  lemma CreateSawAllRunning(props: Props, ids: set<Value>, describe: DescribeStatus, cost: nat -> nat, left: int)
    requires Create(props, ids, describe, cost, left).Ok?
    ensures forall id :: id in ids ==> exists j: nat, rem :: id in rem && ReportedRunning(describe, j, rem, id)
  {
    if ids != {} {
      PollSawAllRunning(describe, cost, 0, ids, left);
    }
  }

  /**
   * When the instances are running from round `n` on, every answer can be
   * read, and the Lambda has time for `n` sleeps, the wait succeeds.
   */
  lemma RunningInTime(props: Props, ids: set<Value>, describe: DescribeStatus, cost: nat -> nat, left: int, n: nat, c: nat)
    requires forall j: nat, rem: set<Value> :: Round(describe, j, rem).Ok?
    requires forall j: nat, rem: set<Value> :: j >= n ==> Round(describe, j, rem) == Ok({})
    requires forall j: nat :: cost(j) <= c
    requires left >= Polling.GuardMs + n * (Polling.PollIntervalMs + c)
    requires forall v :: v in ids ==> v.Str?
    ensures Create(props, ids, describe, cost, left).Ok?
  {
    var step := RoundStep(describe);
    forall j: nat, x: set<Value> ensures step(j, x).Ok? {
      assert step(j, x) == Round(describe, j, x);
    }
    forall j: nat, x: set<Value> | j >= n ensures AllRunning(step(j, x).value) {
      assert step(j, x) == Round(describe, j, x);
    }
    Polling.ReadyInTime(step, AllRunning, Timeout, cost, 0, ids, left, n, c);
  }
}
