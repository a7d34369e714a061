/**
What the backend supervisor of `electron-backend.js` promises, stated about the history of its requests,
spawns, adoptions and restarts.
*/
module SupervisorLog {
  import opened Common

  type Child = nat

  /** The identity of an adopted connection record. */
  type Record = nat

  const MAX_RESTARTS := 5

  /** Who called `startBackend`. */
  datatype Starter = Application | RestartTimer | BudgetTimer

  /** Why a child is no longer the backend's. */
  datatype Cause = TakenByStop | Exited | Unhealthy | Unready

  datatype Event =
    | StartRequest(starter: Starter)
    /** `stopBackend` was called: whether an earlier stop was still at work, and the restart timer stayed armed. */
    | StopRequest(absorbed: bool, armed: bool)
    | Spawn(child: Child)
    /** The current child left, or was let go. */
    | Leave(child: Child, cause: Cause)
    | Adopt(record: Record)
    /** The current record was forgotten, by a start attempt or otherwise. */
    | Lose(attempt: Option<nat>)
    | ArmRestart(number: nat, delay: nat)
    | GiveUp
    | ResetBudget

  /** The latest request. */
  datatype Request = Go | Halt(absorbed: bool, armed: bool)

  /** The latest request, the restarts armed since the last reset, the current record and the current child. */
  datatype Facts = Facts(request: Request, used: nat, info: Option<Record>, child: Option<Child>)

  function Next(f: Facts, e: Event): Facts {
    match e
    case StartRequest(_) => f.(request := Go)
    case StopRequest(absorbed, armed) => f.(request := Halt(absorbed, armed))
    case Spawn(child) => f.(child := Some(child))
    case Leave(_, _) => f.(child := None)
    case Adopt(record) => f.(info := Some(record))
    case Lose(_) => f.(info := None)
    case ArmRestart(_, _) => f.(used := f.used + 1)
    case ResetBudget => f.(used := 0)
    case _ => f
  }

  /** The facts after the first `n` events. */
  function After(log: seq<Event>, n: nat): Facts
    requires n <= |log|
  {
    if n == 0 then Facts(Go, 0, None, None) else Next(After(log, n - 1), log[n - 1])
  }

  // ---- the rules -------------------------------------------------------------------------------------

  /** `base`, doubled `n` times. */
  function Doubled(base: nat, n: nat): nat {
    if n == 0 then base else 2 * Doubled(base, n - 1)
  }

  /** The back-off of restart number `k`. */
  function Delay(base: nat, most: nat, k: nat): nat
    requires k >= 1
  {
    if Doubled(base, k - 1) < most then Doubled(base, k - 1) else most
  }

  /** What may happen next. */
  predicate Allowed(base: nat, most: nat, f: Facts, e: Event) {
    match e
    case StartRequest(Application) => true
    case StartRequest(RestartTimer) => f.request.Halt? ==> f.request.armed
    case StartRequest(BudgetTimer) => f.request.Go?
    case StopRequest(absorbed, armed) => armed ==> absorbed
    case Leave(child, _) => f.child == Some(child)
    case Lose(_) => f.info.Some?
    case ArmRestart(number, delay) =>
      f.request.Go? && number == f.used + 1 <= MAX_RESTARTS && delay == Delay(base, most, number)
    case GiveUp => f.request.Go? && f.used == MAX_RESTARTS
    case _ => f.request.Go?
  }

  predicate Fits(base: nat, most: nat, log: seq<Event>, n: nat)
    requires n < |log|
  {
    Allowed(base, most, After(log, n), log[n])
  }

  /** Every event was allowed when it happened. */
  predicate Legal(base: nat, most: nat, log: seq<Event>) {
    forall n :: 0 <= n < |log| ==> Fits(base, most, log, n)
  }

  lemma {:induction false} PrefixDecides(log: seq<Event>, e: Event, n: nat)
    requires n <= |log|
    ensures After(log + [e], n) == After(log, n)
  {
    if n > 0 {
      PrefixDecides(log, e, n - 1);
    }
  }

  /** Nothing was spawned from `k` on. */
  predicate NoSpawn(log: seq<Event>, k: nat) {
    forall i :: k <= i < |log| ==> !log[i].Spawn?
  }

  /** What one more event does to a log; earlier facts, such as those at `k`, stay. */
  lemma Logging(base: nat, most: nat, log: seq<Event>, e: Event, k: nat)
    requires Legal(base, most, log) && Allowed(base, most, After(log, |log|), e) && k <= |log|
    ensures Legal(base, most, log + [e])
    ensures After(log + [e], |log| + 1) == Next(After(log, |log|), e)
    ensures After(log + [e], k) == After(log, k) && (NoSpawn(log, k) && !e.Spawn? ==> NoSpawn(log + [e], k))
  {
    var more := log + [e];
    forall n | 0 <= n < |more| ensures Fits(base, most, more, n) {
      PrefixDecides(log, e, n);
      assert n < |log| ==> Fits(base, most, log, n);
    }
    PrefixDecides(log, e, |log|);
    PrefixDecides(log, e, k);
  }

  // ---- starting and stopping ---------------------------------------------------------------------------

  predicate IsRequest(e: Event) {
    e.StartRequest? || e.StopRequest?
  }

  /** While the latest request is to stop, it stands in the log, with no request after it. */
  lemma {:induction false} LatestStop(log: seq<Event>, n: nat) returns (i: nat)
    requires n <= |log| && After(log, n).request.Halt?
    ensures i < n && log[i] == StopRequest(After(log, n).request.absorbed, After(log, n).request.armed)
    ensures forall k :: i < k < n ==> !IsRequest(log[k])
  {
    if log[n - 1].StopRequest? {
      i := n - 1;
    } else {
      i := LatestStop(log, n - 1);
    }
  }

  lemma {:induction false} StaysStopped(log: seq<Event>, i: nat, n: nat)
    requires i < n <= |log| && log[i].StopRequest? && forall k :: i < k < n ==> !log[k].StartRequest?
    ensures After(log, n).request.Halt?
  {
    if i < n - 1 {
      StaysStopped(log, i, n - 1);
    }
  }

  /** After a stop request nothing is spawned, adopted or armed until somebody requests a start. */
  lemma NothingWhileStopping(base: nat, most: nat, log: seq<Event>, i: nat, j: nat)
    requires Legal(base, most, log) && i < j < |log| && log[i].StopRequest?
    requires log[j].Spawn? || log[j].Adopt? || log[j].ArmRestart? || log[j].GiveUp? || log[j].ResetBudget?
    ensures exists k :: i < k < j && log[k].StartRequest?
  {
    assert Fits(base, most, log, j);
    if forall k :: i < k < j ==> !log[k].StartRequest? {
      StaysStopped(log, i, j);
    }
  }

  /**
  A start that a timer requests although the latest request was to stop: the timer was the restart timer,
  and that stop was absorbed by an earlier one while the restart timer was armed.
  */
  lemma TimerStartAfterStop(base: nat, most: nat, log: seq<Event>, j: nat) returns (i: nat)
    requires Legal(base, most, log) && j < |log| && log[j].StartRequest? && !log[j].starter.Application?
    requires After(log, j).request.Halt?
    ensures log[j].starter.RestartTimer?
    ensures i < j && log[i] == StopRequest(true, true) && forall k :: i < k < j ==> !IsRequest(log[k])
  {
    assert Fits(base, most, log, j);
    i := LatestStop(log, j);
    assert Fits(base, most, log, i);
  }

  // ---- the restart budget ----------------------------------------------------------------------------------

  /** Restarts armed from `i` up to `j`. */
  function ArmedBetween(log: seq<Event>, i: nat, j: nat): nat
    requires i <= j <= |log|
    decreases j
  {
    if i == j then 0 else ArmedBetween(log, i, j - 1) + if log[j - 1].ArmRestart? then 1 else 0
  }

  lemma {:induction false} UsedBounded(base: nat, most: nat, log: seq<Event>, n: nat)
    requires Legal(base, most, log) && n <= |log|
    ensures After(log, n).used <= MAX_RESTARTS
  {
    if n > 0 {
      assert Fits(base, most, log, n - 1);
      UsedBounded(base, most, log, n - 1);
    }
  }

  lemma {:induction false} UsedGrows(log: seq<Event>, i: nat, j: nat)
    requires i <= j <= |log| && forall k :: i <= k < j ==> !log[k].ResetBudget?
    ensures After(log, j).used == After(log, i).used + ArmedBetween(log, i, j)
    decreases j
  {
    if i < j {
      UsedGrows(log, i, j - 1);
    }
  }

  /** Without a reset of the budget at most five restarts are armed. */
  lemma AtMostFiveRestarts(base: nat, most: nat, log: seq<Event>, i: nat, j: nat)
    requires Legal(base, most, log) && i <= j <= |log| && forall k :: i <= k < j ==> !log[k].ResetBudget?
    ensures ArmedBetween(log, i, j) <= MAX_RESTARTS
  {
    UsedGrows(log, i, j);
    UsedBounded(base, most, log, j);
  }

  // ---- adopted records ---------------------------------------------------------------------------------------

  predicate Untouched(log: seq<Event>, i: nat, n: nat)
    requires i <= n <= |log|
  {
    forall k :: i <= k < n ==> !log[k].Adopt? && !log[k].Lose?
  }

  /** The record that is current after `n` events was current after `k`, or adopted since. */
  predicate HeldSince(log: seq<Event>, k: nat, n: nat, record: Record)
    requires k <= n <= |log|
  {
    || (After(log, k).info == Some(record) && Untouched(log, k, n))
    || exists i :: k <= i < n && log[i] == Adopt(record) && Untouched(log, i + 1, n)
  }

  lemma {:induction false} AdoptedSince(log: seq<Event>, k: nat, n: nat, record: Record)
    requires k <= n <= |log|
    ensures After(log, n).info == Some(record) <==> HeldSince(log, k, n, record)
    decreases n
  {
    if k < n {
      AdoptedSince(log, k, n - 1, record);
      var e := log[n - 1];
      if e.Adopt? && e.record == record {
        assert Untouched(log, n, n);
      } else if !e.Adopt? && !e.Lose? {
        if i :| k <= i < n - 1 && log[i] == Adopt(record) && Untouched(log, i + 1, n - 1) {
          assert Untouched(log, i + 1, n);
        }
        if i :| k <= i < n && log[i] == Adopt(record) && Untouched(log, i + 1, n) {
          assert i < n - 1 && Untouched(log, i + 1, n - 1);
        }
      }
    }
  }

  /** A child that was current after `k` events, and is not after `n`, has left between, if none was spawned. */
  lemma {:induction false} LeftSince(base: nat, most: nat, log: seq<Event>, k: nat, n: nat, child: Child)
    requires Legal(base, most, log) && k <= n <= |log| && NoSpawn(log, k)
    requires After(log, k).child == Some(child) && After(log, n).child != Some(child)
    ensures exists i :: k <= i < n && log[i].Leave? && log[i].child == child
    decreases n
  {
    if After(log, n - 1).child == Some(child) {
      assert Fits(base, most, log, n - 1);
    } else {
      LeftSince(base, most, log, k, n - 1, child);
    }
  }
}
