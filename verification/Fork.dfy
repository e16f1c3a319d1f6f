/** Joining the branches of a `fork` task, whatever order they finish in. */
module Fork {
  import opened Wrappers
  import opened Json
  import opened Engine

  /** How a branch ends; a panic does not even tell which branch it was. */
  datatype Ending = Succeeded(value: Value) | Failed(fault: Fault) | Panicked

  const PANIC := Raised(Problem(Str("fork branch panicked")))
  const WINNER_PANIC := Raised(Problem(Str("fork branch failed")))

  function FaultOf(e: Ending): Fault
    requires !e.Succeeded?
  {
    if e.Failed? then e.fault else PANIC
  }

  /** Every branch finishes exactly once. */
  ghost predicate Schedule(order: seq<nat>, n: nat) {
    && (forall k | 0 <= k < |order| :: order[k] < n)
    && (forall j, k | 0 <= j < k < |order| :: order[j] != order[k])
    && (forall i | 0 <= i < n :: i in order)
  }

  predicate AllSucceeded(endings: seq<Ending>) {
    forall i | 0 <= i < |endings| :: endings[i].Succeeded?
  }

  function Values(endings: seq<Ending>): seq<Value>
    requires AllSucceeded(endings)
  {
    seq(|endings|, i requires 0 <= i < |endings| => endings[i].value)
  }

  /** The first branch to finish without success. */
  function FirstFailure(endings: seq<Ending>, order: seq<nat>): (r: Option<nat>)
    requires forall k | 0 <= k < |order| :: order[k] < |endings|
    ensures r.Some? ==> r.value < |order| && !endings[order[r.value]].Succeeded?
                        && forall k | 0 <= k < r.value :: endings[order[k]].Succeeded?
    ensures r.None? ==> forall k | 0 <= k < |order| :: endings[order[k]].Succeeded?
  {
    if order == [] then None
    else if !endings[order[0]].Succeeded? then Some(0)
    else
      match FirstFailure(endings, order[1..])
      case None => None
      case Some(k) => Some(k + 1)
  }

  lemma ScheduleCovers(endings: seq<Ending>, order: seq<nat>)
    requires Schedule(order, |endings|)
    ensures FirstFailure(endings, order).None? <==> AllSucceeded(endings)
  {
    var r := FirstFailure(endings, order);
    if r.None? {
      forall i | 0 <= i < |endings| ensures endings[i].Succeeded? {
        assert i in order;
      }
    }
  }

  /** The outputs in declaration order, or the first failure in the order of completion. */
  function Joined(endings: seq<Ending>, order: seq<nat>): Result<Value, Fault>
    requires forall k | 0 <= k < |order| :: order[k] < |endings|
  {
    if AllSucceeded(endings) then Ok(Arr(Values(endings)))
    else
      match FirstFailure(endings, order)
      case Some(k) => Err(FaultOf(endings[order[k]]))
      case None => Ok(Null)
  }

  /** What a finished branch leaves in its slot. */
  function Slot(e: Ending): Option<Result<Value, Fault>> {
    match e
    case Succeeded(value) => Some(Ok(value))
    case Failed(fault) => Some(Err(fault))
    case Panicked => None
  }

  /** The failure known once the first k completions are in. */
  function FaultSoFar(endings: seq<Ending>, order: seq<nat>, k: nat): Option<Fault>
    requires forall j | 0 <= j < |order| :: order[j] < |endings|
  {
    var first := FirstFailure(endings, order);
    if first.Some? && first.value < k then Some(FaultOf(endings[order[first.value]])) else None
  }

  /** Waits for all branches. Results are kept in slots by declaration; at the end no slot is empty, even after a panic. */
  method JoinAll(endings: seq<Ending>, order: seq<nat>) returns (r: Result<Value, Fault>)
    requires Schedule(order, |endings|)
    ensures r == Joined(endings, order)
  {
    hide FirstFailure;
    var results := new Option<Result<Value, Fault>>[|endings|](_ => None);
    var firstError: Option<Fault> := None;
    for k := 0 to |order|
      invariant forall i | 0 <= i < |endings| :: results[i] == if i in order[..k] then Slot(endings[i]) else None
      invariant firstError == FaultSoFar(endings, order, k)
    {
      var i := order[k];
      assert order[..k + 1] == order[..k] + [i];
      match endings[i]
      case Succeeded(value) =>
        results[i] := Some(Ok(value));
      case Failed(fault) =>
        if firstError.None? {
          firstError := Some(fault);
        }
        results[i] := Some(Err(fault));
      case Panicked =>
        if firstError.None? {
          firstError := Some(PANIC);
        }
    }
    assert order[..|order|] == order;
    ScheduleCovers(endings, order);
    if firstError.Some? {
      return Err(firstError.value);
    }
    r := Collect(endings, results);
  }

  /** Unwraps every slot; none of them is empty. */
  method Collect(ghost endings: seq<Ending>, results: array<Option<Result<Value, Fault>>>) returns (r: Result<Value, Fault>)
    requires results.Length == |endings| && AllSucceeded(endings)
    requires forall i | 0 <= i < |endings| :: results[i] == Slot(endings[i])
    ensures r == Ok(Arr(Values(endings)))
  {
    var outputs: seq<Value> := [];
    for i := 0 to results.Length
      invariant |outputs| == i && forall j | 0 <= j < i :: outputs[j] == endings[j].value
    {
      outputs := outputs + [results[i].value.value];
    }
    assert outputs == Values(endings);
    return Ok(Arr(outputs));
  }

  /** What a competing fork answers when this branch finishes first. */
  function Win(e: Ending): Result<Value, Fault> {
    match e
    case Succeeded(value) => Ok(value)
    case Failed(fault) => Err(fault)
    case Panicked => Err(WINNER_PANIC)
  }

  /** Waits for the first branch to finish, be it with success or not. */
  method JoinFirst(endings: seq<Ending>, order: seq<nat>) returns (r: Result<Value, Fault>)
    requires Schedule(order, |endings|) && endings != []
    ensures order != [] && r == Win(endings[order[0]])
  {
    assert 0 in order;
    match endings[order[0]]
    case Succeeded(value) => r := Ok(value);
    case Failed(fault) => r := Err(fault);
    case Panicked => r := Err(WINNER_PANIC);
  }

  method TaskFork(endings: seq<Ending>, compete: bool, order: seq<nat>) returns (r: Result<Value, Fault>)
    requires Schedule(order, |endings|)
    ensures endings == [] ==> r == Ok(Arr([]))
    ensures !compete ==> r == Joined(endings, order)
    ensures compete && endings != [] ==> order != [] && r == Win(endings[order[0]])
  {
    if endings == [] {
      assert Values(endings) == [];
      return Ok(Arr([]));
    }
    if compete {
      r := JoinFirst(endings, order);
    } else {
      r := JoinAll(endings, order);
    }
  }

  /** Any branch can win a competing fork, so it answers alike on all schedules exactly when all branches would. */
  lemma AnyBranchCanWin(endings: seq<Ending>)
    requires endings != []
    ensures (forall a, b | Schedule(a, |endings|) && Schedule(b, |endings|) ::
               a != [] && b != [] && Win(endings[a[0]]) == Win(endings[b[0]])) <==>
            forall i, j | 0 <= i < |endings| && 0 <= j < |endings| :: Win(endings[i]) == Win(endings[j])
  {
    hide Win;
    if forall i, j | 0 <= i < |endings| && 0 <= j < |endings| :: Win(endings[i]) == Win(endings[j]) {
      forall a, b | Schedule(a, |endings|) && Schedule(b, |endings|)
        ensures a != [] && b != [] && Win(endings[a[0]]) == Win(endings[b[0]])
      {
        assert 0 in a && 0 in b;
      }
    } else {
      var i, j :| 0 <= i < |endings| && 0 <= j < |endings| && Win(endings[i]) != Win(endings[j]);
      var a := FirstToFinish(|endings|, i);
      var b := FirstToFinish(|endings|, j);
      assert a[0] == i && b[0] == j;
    }
  }

  /** Schedules only decide which failure is reported, never whether the fork fails nor what it yields. */
  lemma SchedulesAgree(endings: seq<Ending>, a: seq<nat>, b: seq<nat>)
    requires Schedule(a, |endings|) && Schedule(b, |endings|)
    ensures Joined(endings, a).Ok? <==> AllSucceeded(endings)
    ensures AllSucceeded(endings) ==> Joined(endings, a) == Joined(endings, b) == Ok(Arr(Values(endings)))
    ensures Joined(endings, a).Err? ==>
              exists i | 0 <= i < |endings| :: !endings[i].Succeeded? && Joined(endings, a) == Err(FaultOf(endings[i]))
  {
    ScheduleCovers(endings, a);
    ScheduleCovers(endings, b);
  }

  /** A schedule in which the given branch finishes first. */
  lemma FirstToFinish(n: nat, i: nat) returns (order: seq<nat>)
    requires i < n
    ensures Schedule(order, n) && order != [] && order[0] == i
  {
    order := seq(n, k requires 0 <= k < n => if k == 0 then i else if k <= i then k - 1 else k);
    forall j | 0 <= j < n ensures j in order {
      assert order[if j == i then 0 else if j < i then j + 1 else j] == j;
    }
  }

  /** And any failing branch can be the one reported. */
  lemma AnyFailureCanWin(endings: seq<Ending>, i: nat) returns (order: seq<nat>)
    requires i < |endings| && !endings[i].Succeeded?
    ensures Schedule(order, |endings|) && Joined(endings, order) == Err(FaultOf(endings[i]))
  {
    order := FirstToFinish(|endings|, i);
  }

  /** If all branches succeed the answer lists their outputs by declaration; else it is the fault of the branch that failed
      before all others that did, a panic being a fault of its own. */
  lemma {:induction false} JoinedMeans(endings: seq<Ending>, order: seq<nat>, k: nat)
    requires Schedule(order, |endings|)
    ensures (forall i | 0 <= i < |endings| :: endings[i].Succeeded?) ==>
              exists values :: Joined(endings, order) == Ok(Arr(values)) && |values| == |endings|
                               && forall i | 0 <= i < |endings| :: endings[i] == Succeeded(values[i])
    ensures k < |order| && !endings[order[k]].Succeeded? && (forall j | 0 <= j < k :: endings[order[j]].Succeeded?) ==>
              Joined(endings, order) ==
              Err(match endings[order[k]]
                  case Failed(fault) => fault
                  case _ => Raised(Problem(Str("fork branch panicked"))))
  {
    ScheduleCovers(endings, order);
    if AllSucceeded(endings) {
      var values := Values(endings);
      assert forall i | 0 <= i < |endings| :: endings[i] == Succeeded(values[i]);
    }
  }

  /** The first branch to finish answers for a competing fork, be it a success, a fault or a panic. */
  lemma {:induction false} WinMeans(v: Value, fault: Fault)
    ensures Win(Succeeded(v)) == Ok(v) && Win(Failed(fault)) == Err(fault)
    ensures Win(Panicked) == Err(Raised(Problem(Str("fork branch failed"))))
  {
  }
}
