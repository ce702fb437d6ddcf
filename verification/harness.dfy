/**
 * The integration tests' stack handling: waiting until a CloudFormation
 * stack reaches one of a set of states, the teardown decision that makes
 * sure a test's stack is gone, and the parameter list given to CloudFormation.
 *
 * `DescribeStacks` is a sequence of answers: answer `k` is what the `k`-th
 * call returns, `None` when the list of stacks is empty. The sleeps between
 * calls are left out; what matters is how many there are.
 */
module IntegrationHarness {
  import opened Wrappers
  import opened Values
  import opened Lifecycle
  import Strings

  datatype StackState =
    | CREATE_COMPLETE
    | CREATE_IN_PROGRESS
    | CREATE_FAILED
    | DELETE_COMPLETE
    | DELETE_FAILED
    | DELETE_IN_PROGRESS
    | REVIEW_IN_PROGRESS
    | ROLLBACK_COMPLETE
    | ROLLBACK_FAILED
    | ROLLBACK_IN_PROGRESS
    | UPDATE_COMPLETE
    | UPDATE_COMPLETE_CLEANUP_IN_PROGRESS
    | UPDATE_IN_PROGRESS
    | UPDATE_ROLLBACK_COMPLETE
    | UPDATE_ROLLBACK_COMPLETE_CLEANUP_IN_PROGRESS
    | UPDATE_ROLLBACK_FAILED
    | UPDATE_ROLLBACK_IN_PROGRESS

  /** `CloudFormationStatesStable`: the states a stack stays in until someone acts. */
  const StableStates: set<StackState> := {
    CREATE_COMPLETE, CREATE_FAILED, ROLLBACK_COMPLETE, ROLLBACK_FAILED, UPDATE_COMPLETE,
    UPDATE_ROLLBACK_COMPLETE, UPDATE_ROLLBACK_FAILED, DELETE_COMPLETE, DELETE_FAILED
  }

  /** The states teardown waits out before deciding. */
  const InProgressStates: set<StackState> := {
    CREATE_IN_PROGRESS, UPDATE_IN_PROGRESS, UPDATE_COMPLETE_CLEANUP_IN_PROGRESS, DELETE_IN_PROGRESS,
    ROLLBACK_IN_PROGRESS, UPDATE_ROLLBACK_IN_PROGRESS, UPDATE_ROLLBACK_COMPLETE_CLEANUP_IN_PROGRESS
  }

  /** The stable states teardown deletes from: every stable state but the two delete outcomes. */
  const DeletableStates: set<StackState> := {
    CREATE_COMPLETE, CREATE_FAILED, ROLLBACK_COMPLETE, ROLLBACK_FAILED, UPDATE_COMPLETE,
    UPDATE_ROLLBACK_COMPLETE, UPDATE_ROLLBACK_FAILED
  }

  /**
   * Nine states are stable and seven in progress; the one state in neither
   * is REVIEW_IN_PROGRESS. The deletable states are the stable ones other
   * than DELETE_COMPLETE and DELETE_FAILED.
   */
  lemma StatesPartition(s: StackState)
    ensures |StableStates| == 9 && |InProgressStates| == 7
    ensures StableStates !! InProgressStates
    ensures s !in StableStates && s !in InProgressStates <==> s == REVIEW_IN_PROGRESS
    ensures s in DeletableStates <==> s in StableStates && s != DELETE_COMPLETE && s != DELETE_FAILED
  {
  }

  function StateName(s: StackState): string {
    match s
    case CREATE_COMPLETE => "CREATE_COMPLETE"
    case CREATE_IN_PROGRESS => "CREATE_IN_PROGRESS"
    case CREATE_FAILED => "CREATE_FAILED"
    case DELETE_COMPLETE => "DELETE_COMPLETE"
    case DELETE_FAILED => "DELETE_FAILED"
    case DELETE_IN_PROGRESS => "DELETE_IN_PROGRESS"
    case REVIEW_IN_PROGRESS => "REVIEW_IN_PROGRESS"
    case ROLLBACK_COMPLETE => "ROLLBACK_COMPLETE"
    case ROLLBACK_FAILED => "ROLLBACK_FAILED"
    case ROLLBACK_IN_PROGRESS => "ROLLBACK_IN_PROGRESS"
    case UPDATE_COMPLETE => "UPDATE_COMPLETE"
    case UPDATE_COMPLETE_CLEANUP_IN_PROGRESS => "UPDATE_COMPLETE_CLEANUP_IN_PROGRESS"
    case UPDATE_IN_PROGRESS => "UPDATE_IN_PROGRESS"
    case UPDATE_ROLLBACK_COMPLETE => "UPDATE_ROLLBACK_COMPLETE"
    case UPDATE_ROLLBACK_COMPLETE_CLEANUP_IN_PROGRESS => "UPDATE_ROLLBACK_COMPLETE_CLEANUP_IN_PROGRESS"
    case UPDATE_ROLLBACK_FAILED => "UPDATE_ROLLBACK_FAILED"
    case UPDATE_ROLLBACK_IN_PROGRESS => "UPDATE_ROLLBACK_IN_PROGRESS"
  }

  /** The first stack of a `DescribeStacks` answer. */
  datatype Stack = Stack(id: string, status: StackState)

  function NotFound(name: string): Error {
    ValueError("Stack `" + name + "` not found")
  }

  function PollsExhausted(id: string, s: StackState): Error {
    TimeoutError("Maxmimum number of polls reached. Stack " + id
      + " did not reach desired state. Current state: " + StateName(s))
  }

  /**
   * The loop from answer `k` on, with `polls` sleeps left: the state of
   * answer `k` ends it when wanted; otherwise with no polls left it times
   * out, else it sleeps and asks again. An empty answer after the first is
   * an `IndexError`. The result carries the index of the deciding answer,
   * which is also the number of sleeps so far.
   */
  function Wait(wanted: set<StackState>, answers: nat -> Option<Stack>, id: string, k: nat, polls: nat): (r: Result<(StackState, nat), Error>)
    requires answers(k).Some?
    ensures r.Ok? ==> r.value.0 in wanted && k <= r.value.1 <= k + polls
    ensures r.Ok? ==> answers(r.value.1).Some? && answers(r.value.1).value.status == r.value.0
    ensures r.Ok? ==> forall j :: k <= j < r.value.1 ==> answers(j).Some? && answers(j).value.status !in wanted
    ensures r.Err? && r.error.TimeoutError? ==>
      forall j :: k <= j <= k + polls ==> answers(j).Some? && answers(j).value.status !in wanted
    decreases polls
  {
    var s := answers(k).value.status;
    if s in wanted then Ok((s, k))
    else if polls == 0 then Err(PollsExhausted(id, s))
    else if answers(k + 1).None? then Err(IndexError)
    else Wait(wanted, answers, id, k + 1, polls - 1)
  }

  /**
   * `wait_until_stack_in_state`: a stack the first answer does not list
   * counts as DELETE_COMPLETE when that is wanted and is a `ValueError`
   * otherwise; then the loop runs with `maxPolls` sleeps at most, tracking
   * the stack by the id the first answer gave.
   */
  function WaitUntilStackInState(name: string, wanted: set<StackState>, answers: nat -> Option<Stack>, maxPolls: nat): (r: Result<(StackState, nat), Error>)
    ensures answers(0).None? ==> r == (if DELETE_COMPLETE in wanted then Ok((DELETE_COMPLETE, 0)) else Err(NotFound(name)))
    ensures r.Ok? ==> r.value.0 in wanted && r.value.1 <= maxPolls
    ensures r.Err? && r.error.TimeoutError? ==> (answers(0).Some? &&
      forall j :: 0 <= j <= maxPolls ==> answers(j).Some? && answers(j).value.status !in wanted)
  {
    if answers(0).None? then
      if DELETE_COMPLETE in wanted then Ok((DELETE_COMPLETE, 0)) else Err(NotFound(name))
    else Wait(wanted, answers, answers(0).value.id, 0, maxPolls)
  }

  /**
   * The wait ends at the first answer in a wanted state, provided it comes
   * within `maxPolls` sleeps and every answer up to it lists the stack.
   */
  lemma {:induction false} WaitFindsFirst(wanted: set<StackState>, answers: nat -> Option<Stack>, id: string, k: nat, polls: nat, n: nat)
    requires k <= n <= k + polls
    requires forall j :: k <= j <= n ==> answers(j).Some?
    requires forall j :: k <= j < n ==> answers(j).value.status !in wanted
    requires answers(n).value.status in wanted
    ensures Wait(wanted, answers, id, k, polls) == Ok((answers(n).value.status, n))
    decreases polls
  {
    if k < n {
      WaitFindsFirst(wanted, answers, id, k + 1, polls - 1, n);
    }
  }

  /** The loop as written, with a `while`; it computes `WaitUntilStackInState`. */
  method WaitLoop(name: string, wanted: set<StackState>, answers: nat -> Option<Stack>, maxPolls: nat) returns (r: Result<(StackState, nat), Error>)
    ensures r == WaitUntilStackInState(name, wanted, answers, maxPolls)
  {
    var first := answers(0);
    if first.None? {
      if DELETE_COMPLETE in wanted {
        return Ok((DELETE_COMPLETE, 0));
      }
      return Err(NotFound(name));
    }
    var id := first.value.id;
    var current := first.value;
    var k: nat := 0;
    var polls := maxPolls;
    while current.status !in wanted
      invariant k + polls == maxPolls
      invariant answers(k) == Some(current)
      invariant Wait(wanted, answers, id, k, polls) == Wait(wanted, answers, id, 0, maxPolls)
      decreases polls
    {
      if polls == 0 {
        return Err(PollsExhausted(id, current.status));
      }
      polls := polls - 1;
      var next := answers(k + 1);
      if next.None? {
        return Err(IndexError);
      }
      current := next.value;
      k := k + 1;
    }
    return Ok((current.status, k));
  }

  /** What the teardown did to the stack. */
  datatype Action = WaitedForStable | Deleted

  /**
   * The teardown of the stack fixture. `describe` is the first
   * `DescribeStacks` answer: the status, or the message of the client error.
   * A stack that does not exist is left alone; one in progress is waited on
   * until stable; then DELETE_COMPLETE needs nothing, the deletable states
   * are deleted and waited on until DELETE_COMPLETE, and anything else is a
   * `RuntimeError`.
   */
  function Teardown(name: string, describe: Result<StackState, string>,
                    settle: nat -> Option<Stack>, gone: nat -> Option<Stack>, maxPolls: nat): (r: Result<seq<Action>, Error>)
    ensures describe.Err? ==> (r.Ok? <==> Strings.EndsWith(describe.error, "does not exist"))
    ensures describe.Ok? && describe.value in DeletableStates ==>
      (r.Ok? <==> WaitUntilStackInState(name, {DELETE_COMPLETE}, gone, maxPolls).Ok?)
    ensures describe.Ok? && describe.value == DELETE_COMPLETE ==> r == Ok([])
    ensures describe.Ok? && describe.value in {DELETE_FAILED, REVIEW_IN_PROGRESS} ==> r.Err? && r.error.RuntimeError?
    ensures r.Ok? && Deleted in r.value ==> describe.Ok? && describe.value != DELETE_COMPLETE
  {
    match describe
    case Err(msg) => if Strings.EndsWith(msg, "does not exist") then Ok([]) else Err(Exception(msg))
    case Ok(status) =>
      var waited: Result<(seq<Action>, StackState), Error> :=
        if status in InProgressStates then
          match WaitUntilStackInState(name, StableStates, settle, maxPolls)
          case Err(e) => Err(e)
          case Ok(w) => Ok(([WaitedForStable], w.0))
        else Ok(([], status));
      match waited
      case Err(e) => Err(e)
      case Ok(w) =>
        var (actions, s) := w;
        if s == DELETE_COMPLETE then Ok(actions)
        else if s in DeletableStates then
          match WaitUntilStackInState(name, {DELETE_COMPLETE}, gone, maxPolls)
          case Err(e) => Err(e)
          case Ok(_) => Ok(actions + [Deleted])
        else Err(RuntimeError("Stack " + name + " is in state I can't fix: " + StateName(s)))
  }

  /**
   * A stack found in progress is waited on first; if it settles in
   * DELETE_FAILED the teardown gives up with a `RuntimeError`, and if it
   * settles in a deletable state it is deleted.
   */
  lemma TeardownAfterSettling(name: string, status: StackState, settle: nat -> Option<Stack>, gone: nat -> Option<Stack>, maxPolls: nat)
    requires status in InProgressStates
    requires WaitUntilStackInState(name, StableStates, settle, maxPolls).Ok?
    ensures var s := WaitUntilStackInState(name, StableStates, settle, maxPolls).value.0;
      var r := Teardown(name, Ok(status), settle, gone, maxPolls);
      (s == DELETE_COMPLETE ==> r == Ok([WaitedForStable])) &&
      (s == DELETE_FAILED ==> r.Err? && r.error.RuntimeError?) &&
      (s in DeletableStates && WaitUntilStackInState(name, {DELETE_COMPLETE}, gone, maxPolls).Ok? ==>
        r == Ok([WaitedForStable, Deleted]))
  {
    assert [WaitedForStable] + [Deleted] == [WaitedForStable, Deleted];
  }

  /** `dict_to_param_array`: one {ParameterKey, ParameterValue} object per entry, in order. */
  function ParamArray(d: Props): (r: seq<Value>)
    ensures |r| == |d|
    ensures forall i :: 0 <= i < |d| ==>
      r[i] == Obj([("ParameterKey", Str(d[i].0)), ("ParameterValue", d[i].1)])
    ensures FromPairList(r, "ParameterKey", "ParameterValue") == d
  {
    PairListRoundTrip(d, "ParameterKey", "ParameterValue");
    PairList(d, "ParameterKey", "ParameterValue")
  }
}
