/**
The backend supervisor of `electron-backend.js`. Each method is one stretch of code between two
awaits, so calling them in any order, with any arguments, covers every interleaving of start, stop,
exit, probe and timer events. Health checks, kills, clocks and port files are arguments.
*/
module Supervisor {
  import opened Common
  import opened SupervisorLog

  /** Where a start attempt stands between two awaits. */
  datatype Attempt =
    | Checking(existing: Record)
    | Grace(existing: Record)
    | KillingExisting
    | AwaitingReady(child: Child)
    | KillingFailed

  /** What happens between resolving the command and having a child. */
  datatype Launch = NoCommand | SpawnThrew | Spawned(child: Child)

  /** The restart budget, its two timers and the log. */
  datatype Plan = Plan(restarts: nat, restartTimer: Option<nat>, budgetTimer: bool, log: seq<Event>)
  {
    function Logged(e: Event): Plan {
      this.(log := log + [e])
    }

    /** A start is requested; the restart timer that requests it has gone off. */
    function Requested(starter: Starter): Plan {
      Logged(StartRequest(starter)).(restartTimer := if starter.RestartTimer? then None else restartTimer)
    }

    /** The current record is forgotten, if there is one. */
    function Lost(info: Option<Record>, attempt: Option<nat>): Plan {
      if info.Some? then Logged(Lose(attempt)) else this
    }

    /** The current child is let go, if there is one. */
    function Left(proc: Option<Child>, cause: Cause): Plan {
      if proc.Some? then Logged(Leave(proc.value, cause)) else this
    }

    /** A record is adopted: nothing is left to restart. */
    function Adopted(record: Record): Plan {
      Logged(Adopt(record)).(restartTimer := None, budgetTimer := false)
    }

    /** The budget is given back. */
    function Reset(): Plan {
      Logged(ResetBudget).(restarts := 0)
    }

    /** A restart is wanted: one timer is armed, unless one already is. */
    function Rescheduled(base: nat, most: nat): Plan {
      if restartTimer.Some? || budgetTimer then this
      else if restarts >= MAX_RESTARTS then Logged(GiveUp).(budgetTimer := true)
      else
        var delay := Delay(base, most, restarts + 1);
        Plan(restarts + 1, Some(delay), false, log + [ArmRestart(restarts + 1, delay)])
    }
  }

  datatype Step =
    | Start(portRecord: Option<Record>, launch: Launch)
    | Settle
    | CheckEnded(healthy: bool, alive: bool)
    | GraceOver(healthy: bool)
    | OldKilled(launch: Launch)
    | RaceDecided(ready: Option<Record>)
    | ChildKilled
    | Exit(child: Child)
    | Attach(record: Record, healthy: bool)
    | Verify(cached: Record, healthy: bool, alive: bool, late: bool, now: nat)
    | Work(now: nat)
    | UnhealthyKilled
    | RestartDue(portRecord: Option<Record>, launch: Launch)
    | BudgetDue(portRecord: Option<Record>, launch: Launch)
    | StabilityDue
    | StabilityAnswered(candidate: Record, healthy: bool)
    | Stop
    | StopOver

  class Manager {
    const base: nat
    const most: nat
    const grace: nat
    var proc: Option<Child>
    var info: Option<Record>
    var restarts: nat
    var stopping: bool
    var attempts: map<nat, Attempt>
    /** Attempts that have returned and whose `finally` has yet to clear the promise. */
    var settling: set<nat>
    var promise: Option<nat>
    var made: nat
    var restartTimer: Option<nat>
    var budgetTimer: bool
    var stabilityTimer: bool
    var stopBusy: bool
    /** When the health probes began to miss, or zero; and when owned work was last seen, or zero. */
    var missStartedAt: nat
    var lastWorkAt: nat
    ghost var request: Request
    /** Where the log stood when the attempt's child was spawned, or when its kill of an old backend began. */
    ghost var since: nat
    ghost var log: seq<Event>

    ghost predicate Valid()
      reads this
    {
      && Legal(base, most, log) && After(log, |log|) == Facts(request, restarts, info, proc)
      && restarts <= MAX_RESTARTS
      && !(restartTimer.Some? && budgetTimer)
      && attempts.Keys !! settling
      && (forall a :: a in attempts || a in settling ==> promise == Some(a))
      && Stopped()
      && since <= |log|
      && (forall a :: a in attempts && (attempts[a].AwaitingReady? || attempts[a].KillingFailed?) ==>
            After(log, since).info.None?)
      && (forall a :: a in attempts && attempts[a].AwaitingReady? ==>
            After(log, since).child == Some(attempts[a].child) && NoSpawn(log, since))
    }

    /** While stopping, the restart timer is armed exactly if the latest stop left it so. */
    ghost predicate Stopped()
      reads this
    {
      && stopping == request.Halt?
      && (stopping ==> (restartTimer.Some? <==> request.armed) && (request.armed ==> request.absorbed))
      && (stopping && !request.absorbed ==> !budgetTimer && !stabilityTimer)
    }

    /** Neither a record, nor a child, nor a timer that would start one. */
    ghost predicate Bare()
      reads this
    {
      info.None? && proc.None? && restartTimer.None? && !budgetTimer
    }

    ghost function Now(): Plan
      reads this
    {
      Plan(restarts, restartTimer, budgetTimer, log)
    }

    constructor (base: nat, most: nat, grace: nat)
      ensures Valid() && this.base == base && this.most == most && this.grace == grace
      ensures Now() == Plan(0, None, false, [])
      ensures proc.None? && info.None? && !stopping && !stopBusy && !stabilityTimer
      ensures attempts == map[] && settling == {} && promise.None? && made == 0
    {
      this.base, this.most, this.grace := base, most, grace;
      proc, info, restarts, stopping := None, None, 0, false;
      attempts, settling, promise, made := map[], {}, None, 0;
      restartTimer, budgetTimer, stabilityTimer, stopBusy := None, false, false, false;
      missStartedAt, lastWorkAt, request, since, log := 0, 0, Go, 0, [];
    }

    /** The current record, if any, is forgotten. */
    method Forget(ghost attempt: Option<nat>)
      requires Valid()
      modifies this`info, this`log
      ensures Valid() && info.None? && Now() == old(Now()).Lost(old(info), attempt)
    {
      if info.Some? {
        Logging(base, most, log, Lose(attempt), since);
        log := log + [Lose(attempt)];
      }
      info := None;
    }

    /** The current child, if any, is no longer the backend's. */
    method LetGo(ghost cause: Cause)
      requires Valid()
      modifies this`proc, this`log
      ensures Valid() && proc.None? && Now() == old(Now()).Left(old(proc), cause)
    {
      if proc.Some? {
        Logging(base, most, log, Leave(proc.value, cause), since);
        log := log + [Leave(proc.value, cause)];
      }
      proc := None;
    }

    /** `clearScheduledRestarts`, as adoption calls it. */
    method ClearScheduledRestarts()
      requires Valid() && !stopping
      modifies this`restartTimer, this`budgetTimer, this`stabilityTimer
      ensures Valid() && restartTimer.None? && !budgetTimer && !stabilityTimer
    {
      restartTimer, budgetTimer, stabilityTimer := None, false, false;
    }

    /** `scheduleStableRestartReset`. */
    method ScheduleStableRestartReset()
      requires Valid() && !stopping
      modifies this`stabilityTimer
      ensures Valid() && (stabilityTimer <==> restarts > 0)
    {
      stabilityTimer := restarts > 0;
    }

    /** `adoptBackend`. */
    method AdoptBackend(record: Record)
      requires Valid() && !stopping
      modifies this`info, this`restartTimer, this`budgetTimer, this`stabilityTimer, this`log, this`missStartedAt
      ensures Valid() && info == Some(record) && Now() == old(Now()).Adopted(record)
      ensures (stabilityTimer <==> restarts > 0) && missStartedAt == 0
    {
      ClearScheduledRestarts();
      ScheduleStableRestartReset();
      SetInfo(record);
      missStartedAt := 0;
    }

    method SetInfo(record: Record)
      requires Valid() && !stopping
      modifies this`info, this`log
      ensures Valid() && info == Some(record) && log == old(log) + [Adopt(record)]
    {
      Logging(base, most, log, Adopt(record), since);
      info, log := Some(record), log + [Adopt(record)];
    }

    /** `scheduleRestart`. */
    method ScheduleRestart()
      requires Valid()
      modifies this`restarts, this`restartTimer, this`budgetTimer, this`stabilityTimer, this`log
      ensures Valid() && !stabilityTimer
      ensures Now() == if stopping then old(Now()) else old(Now()).Rescheduled(base, most)
    {
      stabilityTimer := false;
      if stopping || restartTimer.Some? || budgetTimer { return; }
      if restarts >= MAX_RESTARTS {
        Logging(base, most, log, GiveUp, since);
        log, budgetTimer := log + [GiveUp], true;
        return;
      }
      var delay := Delay(base, most, restarts + 1);
      NextRestart(delay);
      restartTimer := Some(delay);
    }

    method NextRestart(delay: nat)
      requires Valid() && !stopping && restarts < MAX_RESTARTS && delay == Delay(base, most, restarts + 1)
      modifies this`restarts, this`log
      ensures Valid() && restarts == old(restarts) + 1 && log == old(log) + [ArmRestart(restarts, delay)]
    {
      ghost var e := ArmRestart(restarts + 1, delay);
      Logging(base, most, log, e, since);
      restarts, log := restarts + 1, log + [e];
    }

    method ClearBudget()
      requires Valid() && !stopping
      modifies this`restarts, this`log
      ensures Valid() && Now() == old(Now()).Reset()
    {
      Logging(base, most, log, ResetBudget, since);
      restarts, log := 0, log + [ResetBudget];
    }

    // ---- starting ------------------------------------------------------------------------------------

    /** `startBackend` up to its first await: join the attempt in progress, or begin one. */
    method StartBackend(starter: Starter, portRecord: Option<Record>, launch: Launch)
      requires Valid() && (starter.RestartTimer? ==> restartTimer.Some?) && (starter.BudgetTimer? ==> !stopping)
      modifies this`stopping, this`request, this`attempts, this`settling, this`promise, this`made, this`proc, this`info,
               this`restarts, this`restartTimer, this`budgetTimer, this`stabilityTimer, this`log, this`since,
               this`lastWorkAt
      ensures Valid() && !stopping
      ensures old(log) <= log
      ensures promise == if old(promise).Some? then old(promise) else Some(old(made))
      ensures old(promise).Some? || portRecord.Some? ==>
                && Now() == old(Now()).Requested(starter) && proc == old(proc) && info == old(info)
                && stabilityTimer == old(stabilityTimer) && settling == old(settling)
                && attempts == if old(promise).Some? then old(attempts)
                   else map[old(made) := Checking(portRecord.value)]
      ensures old(promise).None? && portRecord.None? ==>
                && info.None?
                && Now() == Launched(base, most, old(Now()).Requested(starter), old(info), old(made), launch)
                && proc == (if launch.Spawned? then Some(launch.child) else old(proc))
                && (if launch.Spawned? then attempts == map[old(made) := AwaitingReady(launch.child)] && settling == {}
                    else attempts == map[] && settling == {old(made)})
    {
      RequestStart(starter);
      if promise.None? { BeginAttempt(portRecord, launch); }
    }

    method RequestStart(starter: Starter)
      requires Valid() && (starter.RestartTimer? ==> restartTimer.Some?) && (starter.BudgetTimer? ==> !stopping)
      modifies this`stopping, this`request, this`restartTimer, this`log
      ensures Valid() && !stopping && Now() == old(Now()).Requested(starter)
    {
      Logging(base, most, log, StartRequest(starter), since);
      stopping, request, log := false, Go, log + [StartRequest(starter)];
      if starter.RestartTimer? {
        restartTimer := None;
      }
    }

    /** `startBackendOnce` up to its first await. */
    method BeginAttempt(portRecord: Option<Record>, launch: Launch)
      requires Valid() && promise.None? && !stopping
      modifies this`attempts, this`settling, this`promise, this`made, this`proc, this`info, this`restarts,
               this`restartTimer, this`budgetTimer, this`stabilityTimer, this`log, this`since, this`lastWorkAt
      ensures Valid() && promise == Some(old(made))
      ensures portRecord.Some? ==>
                && Now() == old(Now()) && proc == old(proc) && info == old(info)
                && stabilityTimer == old(stabilityTimer)
                && attempts == map[old(made) := Checking(portRecord.value)] && settling == {}
      ensures portRecord.None? ==>
                && info.None? && Now() == Launched(base, most, old(Now()), old(info), old(made), launch)
                && proc == (if launch.Spawned? then Some(launch.child) else old(proc))
                && (if launch.Spawned? then attempts == map[old(made) := AwaitingReady(launch.child)] && settling == {}
                    else attempts == map[] && settling == {old(made)})
      ensures portRecord.None? ==>
                (Bare() <==> launch.NoCommand? && old(proc).None? && old(restartTimer).None? && !old(budgetTimer))
    {
      assert attempts == map[] && settling == {} by {
        assert forall a :: a !in attempts && a !in settling;
      }
      var id := made;
      made, promise := made + 1, Some(id);
      if portRecord.Some? {
        attempts := map[id := Checking(portRecord.value)];
      } else {
        attempts := map[id := KillingExisting];
        LaunchBackend(id, launch);
      }
    }

    /** The attempt has returned; its promise is still set. */
    method Return(id: nat)
      requires Valid() && id in attempts
      modifies this`attempts, this`settling
      ensures Valid() && attempts == old(attempts) - {id} && settling == old(settling) + {id}
    {
      attempts, settling := attempts - {id}, settling + {id};
    }

    /** The `finally` of `startBackend`. */
    method StartSettled(id: nat)
      requires Valid() && id in settling
      modifies this`settling, this`promise
      ensures Valid() && promise.None? && attempts == map[] && settling == {}
    {
      settling, promise := settling - {id}, None;
      assert forall a :: a in attempts || a in settling ==> a == id;
    }

    /** The stretch from forgetting the old record to waiting for the new child. */
    method LaunchBackend(id: nat, launch: Launch)
      requires Valid() && id in attempts && !stopping
      modifies this`attempts, this`settling, this`proc, this`info, this`restarts, this`restartTimer, this`budgetTimer,
               this`stabilityTimer, this`log, this`since, this`lastWorkAt
      ensures Valid() && info.None? && Now() == Launched(base, most, old(Now()), old(info), id, launch)
      ensures proc == if launch.Spawned? then Some(launch.child) else old(proc)
      ensures if launch.Spawned?
              then attempts == old(attempts)[id := AwaitingReady(launch.child)] && settling == old(settling)
              else attempts == old(attempts) - {id} && settling == old(settling) + {id}
      ensures stabilityTimer == if launch.SpawnThrew? then false else old(stabilityTimer)
      ensures lastWorkAt == if launch.Spawned? then 0 else old(lastWorkAt)
    {
      Forget(Some(id));
      match launch {
        case NoCommand => Return(id);
        case SpawnThrew =>
          ScheduleRestart();
          Return(id);
        case Spawned(child) => Own(id, child);
      }
    }

    method Own(id: nat, child: Child)
      requires Valid() && id in attempts && !stopping && info.None?
      modifies this`attempts, this`proc, this`log, this`since, this`lastWorkAt
      ensures Valid() && proc == Some(child) && log == old(log) + [Spawn(child)] && lastWorkAt == 0
      ensures attempts == old(attempts)[id := AwaitingReady(child)]
    {
      Logging(base, most, log, Spawn(child), since);
      proc, lastWorkAt, log := Some(child), 0, log + [Spawn(child)];
      since := |log|;
      attempts := attempts[id := AwaitingReady(child)];
    }

    /** The first health check of an existing backend has settled. */
    method Checked(id: nat, healthy: bool, alive: bool)
      requires Valid() && id in attempts && attempts[id].Checking?
      modifies this`attempts, this`settling, this`info, this`restartTimer, this`budgetTimer, this`stabilityTimer,
               this`log, this`since, this`missStartedAt
      ensures Valid()
      ensures old(log) <= log
      ensures if healthy && !stopping
              then info == Some(old(attempts)[id].existing) && Now() == old(Now()).Adopted(old(attempts)[id].existing)
              else info == old(info) && Now() == old(Now()) && stabilityTimer == old(stabilityTimer)
      ensures if healthy || (stopping && !alive)
              then attempts == old(attempts) - {id} && settling == old(settling) + {id}
              else attempts == old(attempts)[id := if alive then Grace(old(attempts)[id].existing) else KillingExisting]
                   && settling == old(settling)
      ensures id !in attempts && !stopping ==> !Bare()
    {
      var existing := attempts[id].existing;
      if healthy {
        if !stopping { AdoptBackend(existing); }
        Return(id);
      } else if alive {
        attempts := attempts[id := Grace(existing)];
      } else if stopping {
        Return(id);
      } else {
        attempts, since := attempts[id := KillingExisting], |log|;
      }
    }

    /** The grace period of an unready but live backend has ended. */
    method GraceEnded(id: nat, healthy: bool)
      requires Valid() && id in attempts && attempts[id].Grace?
      modifies this`attempts, this`settling, this`info, this`restartTimer, this`budgetTimer, this`stabilityTimer,
               this`log, this`since, this`missStartedAt
      ensures Valid()
      ensures old(log) <= log
      ensures if healthy && !stopping
              then info == Some(old(attempts)[id].existing) && Now() == old(Now()).Adopted(old(attempts)[id].existing)
              else info == old(info) && Now() == old(Now()) && stabilityTimer == old(stabilityTimer)
      ensures if healthy || stopping then attempts == old(attempts) - {id} && settling == old(settling) + {id}
              else attempts == old(attempts)[id := KillingExisting] && settling == old(settling)
      ensures id !in attempts && !stopping ==> !Bare()
    {
      if healthy {
        if !stopping { AdoptBackend(attempts[id].existing); }
        Return(id);
      } else if stopping {
        Return(id);
      } else {
        attempts, since := attempts[id := KillingExisting], |log|;
      }
    }

    /** The old process tree is gone. */
    method ExistingKilled(id: nat, launch: Launch)
      requires Valid() && id in attempts && attempts[id].KillingExisting?
      modifies this`attempts, this`settling, this`proc, this`info, this`restarts, this`restartTimer, this`budgetTimer,
               this`stabilityTimer, this`log, this`since, this`lastWorkAt
      ensures Valid()
      ensures old(log) <= log
      ensures stopping ==>
                && Now() == old(Now()) && info == old(info) && proc == old(proc)
                && stabilityTimer == old(stabilityTimer)
                && attempts == old(attempts) - {id} && settling == old(settling) + {id}
      ensures !stopping ==>
                && Now() == Launched(base, most, old(Now()), old(info), id, launch) && info.None?
                && proc == (if launch.Spawned? then Some(launch.child) else old(proc))
                && (launch.Spawned? ==> attempts == old(attempts)[id := AwaitingReady(launch.child)])
      ensures id !in attempts && !stopping ==>
                (Bare() <==> launch.NoCommand? && old(proc).None? && old(restartTimer).None? && !old(budgetTimer))
      ensures !stopping && old(info).Some? ==> old(log) + [Lose(Some(id))] <= log
    {
      if stopping {
        Return(id);
      } else {
        LaunchBackend(id, launch);
      }
    }

    /** The race between readiness and process failure is decided. */
    method ReadyOrFailed(id: nat, ready: Option<Record>)
      requires Valid() && id in attempts && attempts[id].AwaitingReady?
      modifies this`attempts, this`settling, this`proc, this`info, this`restartTimer, this`budgetTimer,
               this`stabilityTimer, this`log, this`missStartedAt
      ensures Valid()
      ensures old(log) <= log
      ensures if ready.Some? && !stopping && old(proc) == Some(old(attempts)[id].child)
              then info == ready && Now() == old(Now()).Adopted(ready.value)
              else
                && info == old(info) && stabilityTimer == old(stabilityTimer)
                && Now() == if ready.None? && old(proc) == Some(old(attempts)[id].child)
                            then old(Now()).Left(old(proc), Unready) else old(Now())
      ensures proc == if ready.None? && old(proc) == Some(old(attempts)[id].child) then None else old(proc)
      ensures if ready.None? then attempts == old(attempts)[id := KillingFailed] && settling == old(settling)
              else attempts == old(attempts) - {id} && settling == old(settling) + {id}
      ensures id !in attempts && !stopping ==> (Bare() <==> old(Bare()))
      ensures old(proc).None? ==>
                exists i :: old(since) <= i < |old(log)|
                            && old(log)[i].Leave? && old(log)[i].child == old(attempts)[id].child
    {
      var child := attempts[id].child;
      if proc != Some(child) {
        LeftSince(base, most, log, since, |log|, child);
      }
      if ready.Some? {
        if !stopping && proc == Some(child) { AdoptBackend(ready.value); }
        Return(id);
      } else {
        if proc == Some(child) { LetGo(Unready); }
        attempts := attempts[id := KillingFailed];
      }
    }

    /** The process tree of the failed child is gone: whatever record is current is forgotten. */
    method FailedKilled(id: nat)
      requires Valid() && id in attempts && attempts[id].KillingFailed?
      modifies this`attempts, this`settling, this`info, this`restarts, this`restartTimer, this`budgetTimer,
               this`stabilityTimer, this`log
      ensures Valid() && info.None? && attempts == old(attempts) - {id} && settling == old(settling) + {id}
      ensures old(log) <= log
      ensures var lost := old(Now()).Lost(old(info), Some(id));
              Now() == if stopping then lost else lost.Rescheduled(base, most)
      ensures stabilityTimer == (stopping && old(stabilityTimer))
      ensures old(info).Some? ==>
                old(since) <= |old(log)| && HeldSince(old(log), old(since), |old(log)|, old(info).value)
      ensures old(info).Some? ==> exists i :: old(since) <= i < |old(log)| && old(log)[i] == Adopt(old(info).value)
      ensures !stopping ==> !Bare()
      ensures old(info).Some? ==> old(log) + [Lose(Some(id))] <= log
    {
      if info.Some? {
        AdoptedSince(log, since, |log|, info.value);
      }
      Forget(Some(id));
      if !stopping { ScheduleRestart(); }
      Return(id);
    }

    // ---- events of the running backend ---------------------------------------------------------------

    /** The exit event of a child, current or superseded. */
    method ChildExited(child: Child)
      requires Valid()
      modifies this`proc, this`info, this`restarts, this`restartTimer, this`budgetTimer, this`stabilityTimer, this`log
      ensures Valid()
      ensures old(log) <= log
      ensures if old(proc) == Some(child) then proc.None? && info.None? else proc == old(proc) && info == old(info)
      ensures var lost := if old(proc) == Some(child)
                          then old(Now()).Left(old(proc), Exited).Lost(old(info), None) else old(Now());
              if old(proc) == Some(child) && old(info).Some? && !stopping
              then Now() == lost.Rescheduled(base, most) && !stabilityTimer
              else Now() == lost && stabilityTimer == old(stabilityTimer)
    {
      var isCurrent, wasReady := proc == Some(child), info.Some?;
      if isCurrent {
        LetGo(Exited);
        Forget(None);
      }
      if isCurrent && wasReady && !stopping {
        ScheduleRestart();
      }
    }

    /** `getInfo` without a record: the port file's backend has answered or not. */
    method AttachProbed(record: Record, healthy: bool)
      requires Valid()
      modifies this`info, this`restartTimer, this`budgetTimer, this`stabilityTimer, this`log, this`missStartedAt
      ensures Valid()
      ensures old(log) <= log
      ensures if healthy && !stopping then info == Some(record) && Now() == old(Now()).Adopted(record)
              else info == old(info) && Now() == old(Now()) && stabilityTimer == old(stabilityTimer)
    {
      if healthy && !stopping { AdoptBackend(record); }
    }

    /** A line on the owned child's pipe reports completed work. */
    method ObserveWork(now: nat)
      requires Valid()
      modifies this`lastWorkAt
      ensures Valid() && lastWorkAt == if proc.Some? then now else old(lastWorkAt)
    {
      if proc.Some? { lastWorkAt := now; }
    }

    /** A live process is spared: its probes have not missed for long, or a late reply finds it just working. */
    ghost predicate Spared(late: bool, now: nat)
      reads this`missStartedAt, this`lastWorkAt, this`proc
    {
      || now - (if missStartedAt == 0 then now else missStartedAt) < grace
      || (late && proc.Some? && lastWorkAt > 0 && now - lastWorkAt < grace)
    }

    /**
    `verifyCachedBackend`: a probe of the record `cached` has settled; true when its process must be
    killed. A live process is killed only when it is no longer spared. `late`: the probe timed out or could not connect.
    */
    method Verified(cached: Record, healthy: bool, alive: bool, late: bool, now: nat) returns (kill: bool)
      requires Valid()
      modifies this`proc, this`info, this`log, this`missStartedAt
      ensures Valid()
      ensures old(log) <= log
      ensures kill <==> old(info) == Some(cached) && !stopping && !healthy && !(alive && old(Spared(late, now)))
      ensures if kill
              then proc.None? && info.None? && missStartedAt == 0
                   && Now() == old(Now()).Left(old(proc), Unhealthy).Lost(old(info), None)
              else proc == old(proc) && info == old(info) && Now() == old(Now())
      ensures old(info) != Some(cached) || stopping ==> missStartedAt == old(missStartedAt)
      ensures old(info) == Some(cached) && !stopping && !kill ==>
                missStartedAt == if healthy then 0 else if old(missStartedAt) == 0 then now else old(missStartedAt)
    {
      if info != Some(cached) || stopping { return false; }
      if healthy {
        missStartedAt := 0;
        return false;
      }
      if alive {
        if missStartedAt == 0 { missStartedAt := now; }
        var completingWork := proc.Some? && lastWorkAt > 0 && now - lastWorkAt < grace && late;
        if now - missStartedAt < grace || completingWork { return false; }
      }
      LetGo(Unhealthy);
      Forget(None);
      missStartedAt := 0;
      return true;
    }

    /** ... and that process tree is gone. */
    method VerifiedKilled()
      requires Valid()
      modifies this`restarts, this`restartTimer, this`budgetTimer, this`stabilityTimer, this`log
      ensures Valid() && !stabilityTimer
      ensures old(log) <= log
      ensures Now() == if stopping then old(Now()) else old(Now()).Rescheduled(base, most)
    {
      ScheduleRestart();
    }

    // ---- timers -----------------------------------------------------------------------------------------

    method RestartTimerFired(portRecord: Option<Record>, launch: Launch)
      requires Valid() && restartTimer.Some?
      modifies this
      ensures Valid() && !stopping && stopBusy == old(stopBusy)
      ensures promise == if old(promise).Some? then old(promise) else Some(old(made))
      ensures old(promise).Some? || portRecord.Some? ==>
                && Now() == old(Now()).Requested(RestartTimer) && proc == old(proc) && info == old(info)
      ensures old(promise).None? && portRecord.None? ==>
                && Now() == Launched(base, most, old(Now()).Requested(RestartTimer), old(info), old(made), launch)
                && info.None? && proc == if launch.Spawned? then Some(launch.child) else old(proc)
    {
      StartBackend(RestartTimer, portRecord, launch);
    }

    /** While stopping, or with a backend there, the cool-down timer does nothing. */
    method BudgetTimerFired(portRecord: Option<Record>, launch: Launch)
      requires Valid() && budgetTimer
      modifies this
      ensures Valid() && stopBusy == old(stopBusy)
      ensures old(stopping) || old(info).Some? || old(proc).Some? ==>
                && Now() == old(Now()).(budgetTimer := false) && stopping == old(stopping) && proc == old(proc)
                && info == old(info) && promise == old(promise) && attempts == old(attempts)
      ensures !old(stopping) && old(info).None? && old(proc).None? ==>
                && !stopping && promise == (if old(promise).Some? then old(promise) else Some(old(made)))
                && old(Now()).Reset().Logged(StartRequest(BudgetTimer)).log <= log
    {
      budgetTimer := false;
      if stopping || info.Some? || proc.Some? { return; }
      ClearBudget();
      StartBackend(BudgetTimer, portRecord, launch);
    }

    /** The stability timer fired; its probe, if there is a record to probe, is awaited. */
    method StabilityTimerFired() returns (candidate: Option<Record>)
      requires Valid() && stabilityTimer
      modifies this`stabilityTimer
      ensures Valid() && !stabilityTimer && candidate == if stopping then None else info
    {
      stabilityTimer := false;
      return if stopping then None else info;
    }

    /** The stability probe of `candidate` has settled. */
    method StabilityProbed(candidate: Record, healthy: bool)
      requires Valid()
      modifies this`restarts, this`stabilityTimer, this`log
      ensures Valid()
      ensures Now() == if !stopping && info == Some(candidate) && healthy then old(Now()).Reset() else old(Now())
      ensures stabilityTimer == if !stopping && info == Some(candidate) && !healthy then restarts > 0
              else old(stabilityTimer)
    {
      if stopping || info != Some(candidate) { return; }
      if !healthy {
        ScheduleStableRestartReset();
        return;
      }
      ClearBudget();
    }

    // ---- stopping ---------------------------------------------------------------------------------------

    /**
    `stopBackend` up to its first await. A stop that is absorbed by an earlier one only sets the flag: it
    leaves an armed restart timer armed.
    */
    method StopBackend()
      requires Valid()
      modifies this`stopping, this`request, this`proc, this`info, this`restartTimer, this`budgetTimer,
               this`stabilityTimer, this`stopBusy, this`log
      ensures Valid() && stopping && stopBusy
      ensures old(log) <= log
      ensures old(stopBusy) ==>
                && Now() == old(Now()).Logged(StopRequest(true, old(restartTimer).Some?)) && proc == old(proc)
                && info == old(info) && stabilityTimer == old(stabilityTimer)
      ensures !old(stopBusy) ==>
                && proc.None? && info.None? && !stabilityTimer
                && Now() == Plan(restarts, None, false, old(log) + [StopRequest(false, false)])
                              .Left(old(proc), TakenByStop).Lost(old(info), None)
    {
      RequestStop(stopBusy);
      if stopBusy { return; }
      stopBusy := true;
      LetGo(TakenByStop);
      Forget(None);
    }

    /** The flag and, unless the stop is absorbed, `clearScheduledRestarts`. */
    method RequestStop(absorbed: bool)
      requires Valid()
      modifies this`stopping, this`request, this`restartTimer, this`budgetTimer, this`stabilityTimer, this`log
      ensures Valid() && stopping
      ensures absorbed ==>
                && Now() == old(Now()).Logged(StopRequest(true, old(restartTimer).Some?))
                && stabilityTimer == old(stabilityTimer)
      ensures !absorbed ==>
                Now() == Plan(restarts, None, false, old(log) + [StopRequest(false, false)]) && !stabilityTimer
    {
      ghost var e := StopRequest(absorbed, absorbed && restartTimer.Some?);
      Logging(base, most, log, e, since);
      stopping, request, log := true, Halt(e.absorbed, e.armed), log + [e];
      if !absorbed {
        restartTimer, budgetTimer, stabilityTimer := None, false, false;
      }
    }

    method StopFinished()
      requires Valid() && stopBusy
      modifies this`stopBusy
      ensures Valid() && !stopBusy
    {
      stopBusy := false;
    }

    // ---- runs -------------------------------------------------------------------------------------------

    /** The steps of an attempt that forget whatever record is current: launching, and giving up. */
    ghost predicate Forgets(attempt: Attempt, step: Step)
      reads this`stopping
    {
      (attempt.KillingExisting? && step.OldKilled? && !stopping) || (attempt.KillingFailed? && step.ChildKilled?)
    }

    /** The steps with which an attempt returns and leaves nothing, though no stop is requested. */
    ghost predicate LeavesNothing(attempt: Attempt, step: Step)
      reads this
    {
      && proc.None? && restartTimer.None? && !budgetTimer
      && ((attempt.KillingExisting? && step.OldKilled? && step.launch.NoCommand?)
          || (attempt.AwaitingReady? && step.RaceDecided? && step.ready.Some? && info.None?))
    }

    /**
    One step of the attempt in progress; a step it is not waiting for does not happen. It forgets a record
    exactly when it launches or gives up while there is one. That record was adopted while the attempt was
    waiting, by somebody else, unless it was already current when the kill of an old backend began.
    When the attempt returns and no stop is requested, there is neither a record nor a child nor a timer exactly if
    nothing could be launched and nothing else was there, or the child became ready after it had left.
    */
    method AttemptStep(id: nat, step: Step)
      requires Valid() && id in attempts
      modifies this
      ensures Valid() && stopBusy == old(stopBusy) && old(log) <= log
      ensures old(info).Some? ==> (info.None? <==> old(Forgets(attempts[id], step)))
      ensures old(info).Some? && info.None? ==>
                && old(log) + [Lose(Some(id))] <= log
                && old(since) <= |old(log)| && HeldSince(old(log), old(since), |old(log)|, old(info).value)
      ensures old(info).Some? && info.None? && step.ChildKilled? ==>
                exists i :: old(since) <= i < |old(log)| && old(log)[i] == Adopt(old(info).value)
      ensures id !in attempts && !stopping ==> (Bare() <==> old(LeavesNothing(attempts[id], step)))
      ensures old(LeavesNothing(attempts[id], step)) && step.RaceDecided? ==>
                exists i :: old(since) <= i < |old(log)|
                            && old(log)[i].Leave? && old(log)[i].child == old(attempts)[id].child
    {
      if info.Some? {
        AdoptedSince(log, since, |log|, info.value);
      }
      match step {
        case CheckEnded(healthy, alive) =>
          if attempts[id].Checking? { Checked(id, healthy, alive); }
        case GraceOver(healthy) =>
          if attempts[id].Grace? { GraceEnded(id, healthy); }
        case OldKilled(launch) =>
          if attempts[id].KillingExisting? { ExistingKilled(id, launch); }
        case RaceDecided(ready) =>
          if attempts[id].AwaitingReady? { ReadyOrFailed(id, ready); }
        case ChildKilled =>
          if attempts[id].KillingFailed? { FailedKilled(id); }
        case _ =>
      }
    }

    method TimerStep(step: Step)
      requires Valid()
      modifies this
      ensures Valid() && stopBusy == old(stopBusy)
      ensures old(log) <= log
    {
      match step {
        case RestartDue(portRecord, launch) =>
          if restartTimer.Some? { RestartTimerFired(portRecord, launch); }
        case BudgetDue(portRecord, launch) =>
          if budgetTimer { BudgetTimerFired(portRecord, launch); }
        case StabilityDue =>
          if stabilityTimer { var _ := StabilityTimerFired(); }
        case StabilityAnswered(candidate, healthy) => StabilityProbed(candidate, healthy);
        case _ =>
      }
    }

    method OtherStep(step: Step)
      requires Valid()
      modifies this
      ensures Valid() && old(log) <= log
    {
      match step {
        case Start(portRecord, launch) => StartBackend(Application, portRecord, launch);
        case Settle =>
          if promise.Some? && promise.value in settling { StartSettled(promise.value); }
        case Exit(child) => ChildExited(child);
        case Attach(record, healthy) => AttachProbed(record, healthy);
        case Verify(cached, healthy, alive, late, now) => var _ := Verified(cached, healthy, alive, late, now);
        case Work(now) => ObserveWork(now);
        case UnhealthyKilled => VerifiedKilled();
        case Stop => StopBackend();
        case StopOver =>
          if stopBusy { StopFinished(); }
        case _ =>
      }
    }

    /** Any events, in any order, with any answers. */
    method Run(steps: seq<Step>)
      requires Valid()
      modifies this
      ensures Valid() && old(log) <= log && Legal(base, most, log)
      ensures |attempts| <= 1 && restarts <= MAX_RESTARTS && !(restartTimer.Some? && budgetTimer)
      ensures stopping ==> (restartTimer.Some? <==> request.armed) && request == After(log, |log|).request
    {
      for i := 0 to |steps|
        invariant Valid() && old(log) <= log
      {
        if promise.Some? && promise.value in attempts {
          AttemptStep(promise.value, steps[i]);
        }
        TimerStep(steps[i]);
        OtherStep(steps[i]);
      }
      if attempts != map[] {
        assert attempts.Keys == {promise.value};
        assert |attempts| == |attempts.Keys|;
      }
    }
  }

  /** The plan after an attempt with nothing left to reuse has forgotten the record and tried to spawn. */
  function Launched(base: nat, most: nat, plan: Plan, info: Option<Record>, id: nat, launch: Launch): Plan {
    var lost := plan.Lost(info, Some(id));
    match launch
    case NoCommand => lost
    case SpawnThrew => lost.Rescheduled(base, most)
    case Spawned(child) => lost.Logged(Spawn(child))
  }

  /**
  The other half of what timers do after a stop: whenever a stop is absorbed while the restart timer is
  armed, the timer stays armed and, when it fires, requests a start; with nothing in progress and nothing
  to reuse it spawns.
  */
  method AbsorbedStopThenTimer(m: Manager, portRecord: Option<Record>, launch: Launch)
    requires m.Valid() && m.stopBusy && m.restartTimer.Some?
    modifies m
    ensures m.Valid() && !m.stopping
    ensures old(m.log) + [StopRequest(true, true), StartRequest(RestartTimer)] <= m.log
    ensures m.promise.Some?
    ensures old(m.promise).None? && portRecord.None? && launch.Spawned? ==>
              m.proc == Some(launch.child) && m.log[|m.log| - 1] == Spawn(launch.child)
  {
    m.StopBackend();
    assert m.restartTimer.Some?;
    m.RestartTimerFired(portRecord, launch);
  }

  /** A start requested while a stop is still at work fails to spawn and arms the restart timer. */
  method StartDuringStop(base: nat, most: nat) returns (m: Manager)
    ensures fresh(m) && m.Valid() && m.stopBusy && m.promise.None? && m.info.None? && m.base == base && m.most == most
    ensures m.Now() == Plan(1, Some(Delay(base, most, 1)), false,
                            [StopRequest(false, false), StartRequest(Application), ArmRestart(1, Delay(base, most, 1))])
  {
    m := new Manager(base, most, 0);
    m.StopBackend();
    assert m.Now() == Plan(0, None, false, [StopRequest(false, false)]);
    var first := m.made;
    m.StartBackend(Application, None, SpawnThrew);
    assert m.log == [StopRequest(false, false), StartRequest(Application), ArmRestart(1, Delay(base, most, 1))];
    m.StartSettled(first);
  }

  /** A history in which a backend is spawned although the last request from outside was to stop. */
  method StopDuringStop(child: Child, base: nat, most: nat) returns (m: Manager)
    ensures m.Valid() && m.proc == Some(child)
    ensures m.log == [StopRequest(false, false), StartRequest(Application), ArmRestart(1, Delay(base, most, 1)),
                      StopRequest(true, true), StartRequest(RestartTimer), Spawn(child)]
  {
    m := StartDuringStop(base, most);
    m.StopBackend();
    m.RestartTimerFired(None, Spawned(child));
  }

  /** A first start has spawned a child and waits for it. */
  method Starting(child: Child, base: nat, most: nat) returns (m: Manager)
    ensures fresh(m) && m.Valid() && m.base == base && m.most == most && m.proc == Some(child) && m.info.None?
    ensures !m.stopping && !m.stopBusy && m.promise == Some(0) && m.attempts == map[0 := AwaitingReady(child)]
    ensures m.Now() == Plan(0, None, false, [StartRequest(Application), Spawn(child)])
  {
    m := new Manager(base, most, 0);
    m.StartBackend(Application, None, Spawned(child));
  }

  /** A history in which a failed start forgets a record that `getInfo` adopted meanwhile. */
  method FailedStartForgetsAdopted(child: Child, record: Record, base: nat, most: nat) returns (m: Manager)
    ensures m.Valid() && m.info.None?
    ensures m.log == [StartRequest(Application), Spawn(child), Leave(child, Unready), Adopt(record), Lose(Some(0)),
                      ArmRestart(1, Delay(base, most, 1))]
  {
    m := Starting(child, base, most);
    m.ReadyOrFailed(0, None);
    assert m.log == [StartRequest(Application), Spawn(child), Leave(child, Unready)];
    m.AttachProbed(record, true);
    assert m.log == [StartRequest(Application), Spawn(child), Leave(child, Unready), Adopt(record)];
    ghost var lost := m.Now().Lost(m.info, Some(0));
    m.FailedKilled(0);
    assert lost.log == [StartRequest(Application), Spawn(child), Leave(child, Unready), Adopt(record), Lose(Some(0))];
    assert m.Now() == lost.Rescheduled(base, most);
  }

  /** A history in which a start that replaces an unhealthy backend does. */
  method LaunchForgetsAdopted(old0: Record, child: Child, record: Record, base: nat, most: nat) returns (m: Manager)
    ensures m.Valid() && m.info.None? && m.proc == Some(child)
    ensures m.log == [StartRequest(Application), Adopt(record), Lose(Some(0)), Spawn(child)]
  {
    m := new Manager(base, most, 0);
    m.StartBackend(Application, Some(old0), NoCommand);
    m.Checked(0, false, false);
    m.AttachProbed(record, true);
    assert m.info == Some(record) && m.log == [StartRequest(Application), Adopt(record)];
    m.ExistingKilled(0, Spawned(child));
  }

  /** A history in which a start joins an attempt whose child a stop has taken, and nothing is left. */
  method JoinedStartLeavesNothing(child: Child, record: Record, base: nat, most: nat) returns (m: Manager)
    ensures m.Valid() && m.Bare() && !m.stopping && m.promise.None?
    ensures m.log == [StartRequest(Application), Spawn(child), StopRequest(false, false), Leave(child, TakenByStop),
                      StartRequest(Application)]
  {
    m := Starting(child, base, most);
    m.StopBackend();
    assert m.log == [StartRequest(Application), Spawn(child), StopRequest(false, false), Leave(child, TakenByStop)];
    m.StartBackend(Application, None, NoCommand);
    assert m.Bare() && m.attempts == map[0 := AwaitingReady(child)];
    m.ReadyOrFailed(0, Some(record));
    m.StartSettled(0);
  }
}
