/**
The usage-write queue of `backend/llm_manifest_bus.py`, on one event loop and before it is stopped:
queueing, coalesced partial usage, fences, loss attribution and the once-only totals.
*/
module UsageQueue {
  import opened Common

  type Manifest(==, !new, 0)

  /** A Goal's identifier; no Goal is `None`. */
  type Goal(==, !new, 0)

  type Usage(!new, 0)

  /** A write somebody asked for. A partial one stores whatever is pending for its request when it runs. */
  datatype Write = Write(manifest: Manifest, usage: bool, partial: bool, goal: Option<Goal>)

  /** What became of a write; a loss names the Goal it was charged to. */
  datatype Fate = Queued | Running | Stored | Lost(charged: Option<Goal>)

  /** Writes are known by the order in which they were asked for. */
  datatype Item = Patch(write: nat) | Fence(flush: nat)

  // ---- the queue and its fences -----------------------------------------------------------------------

  /** Each write is queued, running, stored or lost, and the queue and the writer know exactly theirs. */
  predicate Held(queue: seq<Item>, running: Option<nat>, fates: seq<Fate>) {
    && (forall i :: 0 <= i < |queue| && queue[i].Patch? ==> queue[i].write < |fates| && fates[queue[i].write].Queued?)
    && (forall i, j :: 0 <= i < j < |queue| && queue[i].Patch? && queue[j].Patch? ==> queue[i].write < queue[j].write)
    && (forall t :: 0 <= t < |fates| ==> QueuedAt(queue, fates, t))
    && (running.Some? ==> running.value < |fates|)
    && Runs(running, fates)
  }

  predicate QueuedAt(queue: seq<Item>, fates: seq<Fate>, t: nat)
    requires t < |fates|
  {
    fates[t].Queued? ==> Patch(t) in queue
  }

  /** The running write is the one the writer knows. */
  predicate Runs(running: Option<nat>, fates: seq<Fate>) {
    forall t :: 0 <= t < |fates| ==> RunsAt(running, fates, t)
  }

  predicate RunsAt(running: Option<nat>, fates: seq<Fate>, t: nat)
    requires t < |fates|
  {
    fates[t].Running? <==> running == Some(t)
  }

  /** Changing one fate, or adding one. */
  lemma RunsStep(running: Option<nat>, fates: seq<Fate>, after: Option<nat>, more: seq<Fate>, t: nat)
    requires Runs(running, fates) && t < |more| && |fates| <= |more| <= |fates| + 1
    requires |more| > |fates| ==> t == |fates|
    requires forall u :: 0 <= u < |fates| && u != t ==> more[u] == fates[u]
    requires RunsAt(after, more, t) && forall u: nat :: u < |more| && u != t ==>
               (after == Some(u) <==> running == Some(u))
    ensures Runs(after, more)
  {
    forall u | 0 <= u < |more| ensures RunsAt(after, more, u) {
      assert u != t ==> RunsAt(running, fates, u);
    }
  }

  /** Changing one fate, or adding one, and the queue with it. */
  lemma QueuedStep(queue: seq<Item>, fates: seq<Fate>, after: seq<Item>, more: seq<Fate>, t: nat)
    requires forall u :: 0 <= u < |fates| ==> QueuedAt(queue, fates, u)
    requires t < |more| && |fates| <= |more| <= |fates| + 1 && (|more| > |fates| ==> t == |fates|)
    requires forall u :: 0 <= u < |fates| && u != t ==> more[u] == fates[u]
    requires QueuedAt(after, more, t)
    requires forall u: nat :: u != t && Patch(u) in queue ==> Patch(u) in after
    ensures forall u :: 0 <= u < |more| ==> QueuedAt(after, more, u)
  {
    forall u | 0 <= u < |more| ensures QueuedAt(after, more, u) {
      assert u != t ==> QueuedAt(queue, fates, u);
    }
  }

  /** Behind a fence there are only writes asked for after its flush began. */
  predicate Fenced(queue: seq<Item>, covers: map<nat, nat>) {
    && (forall i :: 0 <= i < |queue| && queue[i].Fence? ==> queue[i].flush in covers)
    && (forall i, j :: 0 <= i < j < |queue| && queue[i].Fence? && queue[j].Patch? && queue[i].flush in covers ==>
          covers[queue[i].flush] <= queue[j].write)
  }

  predicate Settled(fates: seq<Fate>, n: nat) {
    n <= |fates| && forall t :: 0 <= t < n ==> fates[t].Stored? || fates[t].Lost?
  }

  /** A flush that has returned found every earlier write settled. */
  predicate Flushed(returned: set<nat>, covers: map<nat, nat>, fates: seq<Fate>) {
    && (forall f :: f in covers ==> covers[f] <= |fates|)
    && (forall f :: f in returned ==> f in covers && Settled(fates, covers[f]))
  }

  /** When a fence is taken from the queue, every write it covers is settled. */
  lemma FenceReached(queue: seq<Item>, covers: map<nat, nat>, fates: seq<Fate>, returned: set<nat>)
    requires Held(queue, None, fates) && Fenced(queue, covers) && Flushed(returned, covers, fates)
    requires |queue| > 0 && queue[0].Fence?
    ensures queue[0].flush in covers && Settled(fates, covers[queue[0].flush])
  {
    forall t: nat | t < |fates| && fates[t].Queued? ensures covers[queue[0].flush] <= t {
      assert QueuedAt(queue, fates, t) && Patch(t) in queue;
    }
    forall t: nat | t < |fates| ensures !fates[t].Running? {
      assert RunsAt(None, fates, t);
    }
  }

  /** A write is queued exactly when it is in the queue, once; nothing else is in the queue. */
  lemma QueuedOnce(queue: seq<Item>, running: Option<nat>, fates: seq<Fate>, t: nat)
    requires Held(queue, running, fates)
    ensures Patch(t) in queue <==> t < |fates| && fates[t].Queued?
    ensures forall i, j :: 0 <= i < |queue| && 0 <= j < |queue| && queue[i] == queue[j] == Patch(t) ==> i == j
    ensures running == Some(t) ==> Patch(t) !in queue
  {
    if t < |fates| {
      assert QueuedAt(queue, fates, t) && RunsAt(running, fates, t);
    }
    if Patch(t) in queue {
      var i :| 0 <= i < |queue| && queue[i] == Patch(t);
      assert queue[i].Patch?;
    }
    forall i, j | 0 <= i < j < |queue| && queue[i] == Patch(t) ensures queue[j] != Patch(t) {
      assert queue[i].Patch? && queue[i].write == t;
    }
  }

  // ---- counting losses ----------------------------------------------------------------------------------

  function LostAmong(fates: seq<Fate>, n: nat): nat
    requires n <= |fates|
  {
    if n == 0 then 0 else LostAmong(fates, n - 1) + if fates[n - 1].Lost? then 1 else 0
  }

  function ChargedAmong(fates: seq<Fate>, goal: Goal, n: nat): nat
    requires n <= |fates|
  {
    if n == 0 then 0 else ChargedAmong(fates, goal, n - 1) + if fates[n - 1] == Lost(Some(goal)) then 1 else 0
  }

  function LossesOf(losses: map<Goal, nat>, goal: Goal): nat {
    if goal in losses then losses[goal] else 0
  }

  /** The counters tell how many writes were lost, in all and for each Goal. */
  ghost predicate Counted(fates: seq<Fate>, failures: nat, losses: map<Goal, nat>) {
    && failures == LostAmong(fates, |fates|)
    && forall g :: Balanced(fates, losses, g)
  }

  ghost predicate Balanced(fates: seq<Fate>, losses: map<Goal, nat>, goal: Goal) {
    LossesOf(losses, goal) == ChargedAmong(fates, goal, |fates|)
  }

  lemma {:induction false} CountsAppend(fates: seq<Fate>, fate: Fate, n: nat)
    requires n <= |fates|
    ensures LostAmong(fates + [fate], n) == LostAmong(fates, n)
    ensures forall g :: ChargedAmong(fates + [fate], g, n) == ChargedAmong(fates, g, n)
  {
    if n > 0 {
      CountsAppend(fates, fate, n - 1);
    }
  }

  lemma {:induction false} CountsUpdate(fates: seq<Fate>, t: nat, fate: Fate, n: nat)
    requires t < |fates| && n <= |fates| && !fates[t].Lost?
    ensures LostAmong(fates[t := fate], n) == LostAmong(fates, n) + if t < n && fate.Lost? then 1 else 0
    ensures forall g :: ChargedAmong(fates[t := fate], g, n) ==
                        ChargedAmong(fates, g, n) + if t < n && fate == Lost(Some(g)) then 1 else 0
  {
    if n > 0 {
      CountsUpdate(fates, t, fate, n - 1);
    }
  }

  /** Charging one more loss. */
  function Charge(losses: map<Goal, nat>, goal: Option<Goal>): map<Goal, nat> {
    if goal.None? then losses else losses[goal.value := LossesOf(losses, goal.value) + 1]
  }

  lemma AppendCounted(fates: seq<Fate>, failures: nat, losses: map<Goal, nat>, fate: Fate)
    requires Counted(fates, failures, losses)
    ensures if fate.Lost? then Counted(fates + [fate], failures + 1, Charge(losses, fate.charged))
            else Counted(fates + [fate], failures, losses)
  {
    CountsAppend(fates, fate, |fates|);
    var after := if fate.Lost? then Charge(losses, fate.charged) else losses;
    forall g ensures Balanced(fates + [fate], after, g) {
      assert Balanced(fates, losses, g);
    }
  }

  lemma UpdateCounted(fates: seq<Fate>, failures: nat, losses: map<Goal, nat>, t: nat, fate: Fate)
    requires Counted(fates, failures, losses) && t < |fates| && !fates[t].Lost?
    ensures if fate.Lost? then Counted(fates[t := fate], failures + 1, Charge(losses, fate.charged))
            else Counted(fates[t := fate], failures, losses)
  {
    CountsUpdate(fates, t, fate, |fates|);
    var after, changed := if fate.Lost? then Charge(losses, fate.charged) else losses, fates[t := fate];
    forall g ensures Balanced(changed, after, g) {
      assert Balanced(fates, losses, g);
    }
  }

  // ---- whom a loss is charged to ---------------------------------------------------------------------------

  /** A lost usage write is charged to the Goal known when it was queued, if there was one. */
  predicate Attributed(writes: seq<Write>, fates: seq<Fate>) {
    |writes| == |fates| && forall t :: 0 <= t < |fates| ==> Justified(writes, fates, t)
  }

  predicate Justified(writes: seq<Write>, fates: seq<Fate>, t: nat)
    requires t < |writes| == |fates|
  {
    Fair(writes[t], fates[t])
  }

  predicate Fair(write: Write, fate: Fate) {
    fate.Lost? ==> if write.usage then write.goal.Some? ==> fate.charged == write.goal else fate.charged.None?
  }

  lemma Justify(writes: seq<Write>, fates: seq<Fate>, more: seq<Write>, after: seq<Fate>, t: nat)
    requires Attributed(writes, fates) && writes <= more && |more| == |after| && t < |after|
    requires forall u :: 0 <= u < |fates| && u != t ==> u < |after| && after[u] == fates[u]
    requires |after| <= |fates| + 1 && (t != |fates| ==> |after| == |fates|)
    requires Justified(more, after, t)
    ensures Attributed(more, after)
  {
    forall u | 0 <= u < |after| ensures Justified(more, after, u) {
      assert u != t ==> Justified(writes, fates, u);
    }
  }

  // ---- coalesced partial usage -----------------------------------------------------------------------------

  /** The write has yet to take its value. */
  predicate Open(writes: seq<Write>, fates: seq<Fate>, holding: bool, t: nat) {
    && t < |writes| == |fates| && writes[t].partial
    && (fates[t].Queued? || (fates[t].Running? && !holding))
  }

  /** Each request with a pending value has exactly one write that will take it, and the value is its latest. */
  ghost predicate Coalesced(writes: seq<Write>, fates: seq<Fate>, holding: bool, pending: map<Manifest, Usage>,
                      opener: map<Manifest, nat>, latest: map<Manifest, Usage>, answered: map<Manifest, Usage>) {
    && opener.Keys == pending.Keys
    && (forall m :: m in opener ==> Open(writes, fates, holding, opener[m]) && writes[opener[m]].manifest == m)
    && (forall t: nat {:trigger Open(writes, fates, holding, t)} :: Open(writes, fates, holding, t) ==>
          writes[t].manifest in opener && opener[writes[t].manifest] == t)
    && (forall m :: m in pending ==> m in latest && pending[m] == latest[m])
    && (forall m :: m in latest && m !in pending ==> m in answered && answered[m] == latest[m])
  }

  // ---- bounded lookup maps ---------------------------------------------------------------------------------

  function Lookup(entries: seq<(Manifest, Goal)>, m: Manifest): Option<Goal> {
    if |entries| == 0 then None
    else if entries[|entries| - 1].0 == m then Some(entries[|entries| - 1].1)
    else Lookup(entries[..|entries| - 1], m)
  }

  function Dropped(entries: seq<(Manifest, Goal)>, m: Manifest): (r: seq<(Manifest, Goal)>)
    ensures |r| <= |entries|
  {
    if |entries| == 0 then []
    else
      var before := Dropped(entries[..|entries| - 1], m);
      if entries[|entries| - 1].0 == m then before else before + [entries[|entries| - 1]]
  }

  /** Stored as the newest entry; the oldest ones go when there are more than `most`. */
  function Remembered(entries: seq<(Manifest, Goal)>, m: Manifest, g: Goal, most: nat): (r: seq<(Manifest, Goal)>)
    ensures |r| <= most
  {
    var all := Dropped(entries, m) + [(m, g)];
    if |all| <= most then all else all[|all| - most..]
  }

  /** What was just remembered is found, unless the bound is zero. */
  lemma RememberedIsFound(entries: seq<(Manifest, Goal)>, m: Manifest, g: Goal, most: nat)
    requires most > 0
    ensures Lookup(Remembered(entries, m, g, most), m) == Some(g)
  {
    var r := Remembered(entries, m, g, most);
    assert r[|r| - 1] == (m, g);
  }

  // ---- what each step keeps ----------------------------------------------------------------------------------

  /** Everything but the coalescing. */
  ghost predicate Booked(queue: seq<Item>, running: Option<nat>, writes: seq<Write>, fates: seq<Fate>,
                         covers: map<nat, nat>,
                         returned: set<nat>, failures: nat, losses: map<Goal, nat>) {
    && Held(queue, running, fates) && Fenced(queue, covers) && Flushed(returned, covers, fates)
    && Counted(fates, failures, losses) && Attributed(writes, fates)
  }

  lemma AppendHeld(queue: seq<Item>, running: Option<nat>, fates: seq<Fate>)
    requires Held(queue, running, fates)
    ensures Held(queue + [Patch(|fates|)], running, fates + [Queued])
  {
    var more := queue + [Patch(|fates|)];
    assert more[|queue|] == Patch(|fates|);
    QueuedStep(queue, fates, more, fates + [Queued], |fates|);
    RunsStep(running, fates, running, fates + [Queued], |fates|);
  }

  lemma AppendFenced(queue: seq<Item>, covers: map<nat, nat>, returned: set<nat>, fates: seq<Fate>)
    requires Fenced(queue, covers) && Flushed(returned, covers, fates)
    ensures Fenced(queue + [Patch(|fates|)], covers) && Flushed(returned, covers, fates + [Queued])
  {}

  lemma AppendBooked(queue: seq<Item>, running: Option<nat>, writes: seq<Write>, fates: seq<Fate>,
                     covers: map<nat, nat>,
                     returned: set<nat>, failures: nat, losses: map<Goal, nat>, write: Write)
    requires Booked(queue, running, writes, fates, covers, returned, failures, losses)
    ensures Booked(queue + [Patch(|fates|)], running, writes + [write], fates + [Queued], covers, returned, failures,
                   losses)
  {
    AppendHeld(queue, running, fates);
    AppendFenced(queue, covers, returned, fates);
    AppendCounted(fates, failures, losses, Queued);
    Justify(writes, fates, writes + [write], fates + [Queued], |fates|);
  }

  lemma LoseBooked(queue: seq<Item>, running: Option<nat>, writes: seq<Write>, fates: seq<Fate>, covers: map<nat, nat>,
                   returned: set<nat>, failures: nat, losses: map<Goal, nat>, write: Write, charged: Option<Goal>)
    requires Booked(queue, running, writes, fates, covers, returned, failures, losses)
    requires Fair(write, Lost(charged))
    ensures Booked(queue, running, writes + [write], fates + [Lost(charged)], covers, returned, failures + 1,
                   Charge(losses, charged))
  {
    AppendCounted(fates, failures, losses, Lost(charged));
    QueuedStep(queue, fates, queue, fates + [Lost(charged)], |fates|);
    RunsStep(running, fates, running, fates + [Lost(charged)], |fates|);
    Justify(writes, fates, writes + [write], fates + [Lost(charged)], |fates|);
  }

  /** The writer takes the next write. */
  lemma NextBooked(queue: seq<Item>, writes: seq<Write>, fates: seq<Fate>, covers: map<nat, nat>,
                   returned: set<nat>, failures: nat, losses: map<Goal, nat>)
    requires Booked(queue, None, writes, fates, covers, returned, failures, losses) && |queue| > 0 && queue[0].Patch?
    ensures queue[0].write < |fates|
    ensures Booked(queue[1..], Some(queue[0].write), writes, fates[queue[0].write := Running], covers, returned,
                   failures, losses)
  {
    var t := queue[0].write;
    UpdateCounted(fates, failures, losses, t, Running);
    Justify(writes, fates, writes, fates[t := Running], t);
    assert queue == [queue[0]] + queue[1..];
    QueuedStep(queue, fates, queue[1..], fates[t := Running], t);
    RunsStep(None, fates, Some(t), fates[t := Running], t);
  }

  /** The running write has been stored or lost. */
  lemma FinishBooked(queue: seq<Item>, t: nat, writes: seq<Write>, fates: seq<Fate>, covers: map<nat, nat>,
                     returned: set<nat>, failures: nat, losses: map<Goal, nat>, fate: Fate)
    requires Booked(queue, Some(t), writes, fates, covers, returned, failures, losses)
    requires (fate.Stored? || fate.Lost?) && Fair(writes[t], fate)
    ensures Booked(queue, None, writes, fates[t := fate], covers, returned,
                   failures + (if fate.Lost? then 1 else 0),
                   if fate.Lost? then Charge(losses, fate.charged) else losses)
  {
    assert RunsAt(Some(t), fates, t);
    UpdateCounted(fates, failures, losses, t, fate);
    Justify(writes, fates, writes, fates[t := fate], t);
    QueuedStep(queue, fates, queue, fates[t := fate], t);
    RunsStep(Some(t), fates, None, fates[t := fate], t);
  }

  /** A flush begins, or its fence takes a place in the queue. */
  lemma FlushBooked(queue: seq<Item>, running: Option<nat>, writes: seq<Write>, fates: seq<Fate>, covers: map<nat, nat>,
                    returned: set<nat>, failures: nat, losses: map<Goal, nat>, f: nat)
    requires Booked(queue, running, writes, fates, covers, returned, failures, losses)
    ensures f !in covers ==> Booked(queue, running, writes, fates, covers[f := |fates|], returned, failures, losses)
    ensures f in covers ==> Booked(queue + [Fence(f)], running, writes, fates, covers, returned, failures, losses)
  {
    forall t | 0 <= t < |fates| ensures QueuedAt(queue + [Fence(f)], fates, t) {
      assert QueuedAt(queue, fates, t);
    }
  }

  lemma FenceBooked(queue: seq<Item>, writes: seq<Write>, fates: seq<Fate>, covers: map<nat, nat>,
                    returned: set<nat>, failures: nat, losses: map<Goal, nat>)
    requires Booked(queue, None, writes, fates, covers, returned, failures, losses) && |queue| > 0 && queue[0].Fence?
    ensures Booked(queue[1..], None, writes, fates, covers, returned + {queue[0].flush}, failures, losses)
  {
    FenceReached(queue, covers, fates, returned);
    assert queue == [queue[0]] + queue[1..];
    forall t | 0 <= t < |fates| ensures QueuedAt(queue[1..], fates, t) {
      assert QueuedAt(queue, fates, t);
    }
  }

  /** Steps that leave no write newly open and none newly closed keep the coalescing. */
  lemma OpenUnchanged(writes: seq<Write>, fates: seq<Fate>, holding: bool, more: seq<Write>, after: seq<Fate>,
                      held: bool,
                      pending: map<Manifest, Usage>, opener: map<Manifest, nat>, latest: map<Manifest, Usage>,
                      answered: map<Manifest, Usage>)
    requires Coalesced(writes, fates, holding, pending, opener, latest, answered)
    requires writes <= more && |writes| == |fates| && |more| == |after|
    requires forall t :: 0 <= t < |more| ==>
               (Open(more, after, held, t) <==> t < |writes| && Open(writes, fates, holding, t))
    ensures Coalesced(more, after, held, pending, opener, latest, answered)
  {
    forall m | m in opener ensures Open(more, after, held, opener[m]) && more[opener[m]].manifest == m {
      assert Open(writes, fates, holding, opener[m]);
    }
    forall t: nat | Open(more, after, held, t) ensures more[t].manifest in opener && opener[more[t].manifest] == t {
      assert Open(writes, fates, holding, t);
    }
  }

  // ---- the bus -------------------------------------------------------------------------------------------------

  const QUEUE_SIZE := 256
  const MOST_INFLIGHT := 65536
  const MOST_SETTLED := 8192

  /**
  What the ledger holds as partial usage: the latest value of every request, except where a later one is
  pending or in the writer's hand, or the latest was refused or lost.
  */
  ghost predicate Delivered(latest: map<Manifest, Usage>, pending: map<Manifest, Usage>, hand: Option<Manifest>,
                            holding: Option<Usage>, missed: set<Manifest>, ledger: map<Manifest, Usage>) {
    && (forall m :: m in latest && m !in pending && hand != Some(m) && m !in missed ==>
          m in ledger && ledger[m] == latest[m])
    && (hand.Some? && hand.value !in pending && hand.value !in missed ==>
          hand.value in latest && holding == Some(latest[hand.value]))
  }

  /** The ledger after a write that held `value` for request `m`. */
  ghost function Handed(ledger: map<Manifest, Usage>, m: Manifest, value: Option<Usage>, stored: bool)
    : map<Manifest, Usage> {
    if stored && value.Some? then ledger[m := value.value] else ledger
  }

  class Bus {
    var queue: seq<Item>
    /** Every write asked for. */
    var writes: seq<Write>
    /** The write in the worker thread, and the partial value it has taken. */
    var running: Option<nat>
    var holding: Option<Usage>
    var pending: map<Manifest, Usage>
    var inflight: seq<(Manifest, Goal)>
    var settled: seq<(Manifest, Goal)>
    var failures: nat
    var losses: map<Goal, nat>
    var flushes: nat
    /** Flushes waiting for a place in the queue. */
    var putting: set<nat>
    var returned: set<nat>
    ghost var fates: seq<Fate>
    /** How many writes had been asked for when each flush began. */
    ghost var covers: map<nat, nat>
    ghost var opener: map<Manifest, nat>
    /** The latest partial usage submitted for a request, and the one last handed over or refused. */
    ghost var latest: map<Manifest, Usage>
    ghost var answered: map<Manifest, Usage>
    /** The partial usage that the durable ledger holds, and the requests whose latest value was refused or lost. */
    var ledger: map<Manifest, Usage>
    ghost var missed: set<Manifest>
    /** The request whose value the running write has taken. */
    ghost var hand: Option<Manifest>

    ghost predicate Books()
      reads this`queue, this`running, this`writes, this`fates, this`covers, this`returned, this`failures, this`losses,
            this`flushes, this`putting
    {
      && Booked(queue, running, writes, fates, covers, returned, failures, losses)
      && |queue| <= QUEUE_SIZE
      && (forall f: nat :: f in covers <==> f < flushes) && (forall f :: f in putting ==> f in covers)
    }

    ghost predicate Merged()
      reads this`writes, this`fates, this`holding, this`pending, this`opener, this`latest, this`answered
    {
      Coalesced(writes, fates, holding.Some?, pending, opener, latest, answered)
    }

    ghost predicate Kept()
      reads this`holding, this`hand, this`latest, this`pending, this`missed, this`ledger
    {
      Delivered(latest, pending, hand, holding, missed, ledger)
    }

    ghost predicate Valid()
      reads this
    {
      && Books() && Merged() && Kept()
      && (if holding.Some?
          then running.Some? && running.value < |writes| && writes[running.value].partial
               && hand == Some(writes[running.value].manifest)
          else hand.None?)
    }

    constructor ()
      ensures Valid() && writes == [] && queue == [] && losses == map[] && failures == 0
    {
      queue, writes, running, holding, pending := [], [], None, None, map[];
      inflight, settled, failures, losses, flushes, putting, returned := [], [], 0, map[], 0, {}, {};
      fates, covers, opener, latest, answered := [], map[], map[], map[], map[];
      ledger, missed, hand := map[], {}, None;
    }

    /** `_goal_of`. */
    function GoalOf(m: Manifest): Option<Goal>
      reads this`inflight, this`settled
    {
      if Lookup(inflight, m).Some? then Lookup(inflight, m) else Lookup(settled, m)
    }

    /** The Goal of a usage write is the one given, or the one the lookup maps know now. */
    function Asked(manifest: Manifest, usage: bool, goal: Option<Goal>): Write
      reads this`inflight, this`settled
    {
      Write(manifest, usage, false, if !usage then None else if goal.Some? then goal else GoalOf(manifest))
    }

    /** Whom `_ledger_failed` charges; `row` is the Goal of the stored record. */
    function Charged(write: Write, row: Option<Goal>): (r: Option<Goal>)
      reads this`inflight, this`settled
      ensures Fair(write, Lost(r))
    {
      if !write.usage then None
      else if write.goal.Some? then write.goal
      else if GoalOf(write.manifest).Some? then GoalOf(write.manifest)
      else row
    }

    /** `_ledger_failed` for a write that is not, or no longer, in the queue. */
    method CountLoss(charged: Option<Goal>)
      modifies this`failures, this`losses
      ensures failures == old(failures) + 1 && losses == Charge(old(losses), charged)
    {
      failures := failures + 1;
      if charged.Some? {
        losses := losses[charged.value := LossesOf(losses, charged.value) + 1];
      }
    }

    method Accept(write: Write)
      requires Books() && |queue| < QUEUE_SIZE
      modifies this`queue, this`writes, this`fates
      ensures Books() && writes == old(writes) + [write]
      ensures fates == old(fates) + [Queued] && queue == old(queue) + [Patch(|old(writes)|)]
    {
      AppendBooked(queue, running, writes, fates, covers, returned, failures, losses, write);
      queue, fates, writes := queue + [Patch(|writes|)], fates + [Queued], writes + [write];
    }

    /** A write that is lost at once. */
    method Refuse(write: Write, row: Option<Goal>)
      requires Books()
      modifies this`writes, this`fates, this`failures, this`losses
      ensures Books() && writes == old(writes) + [write] && fates == old(fates) + [Lost(old(Charged(write, row)))]
      ensures losses == Charge(old(losses), old(Charged(write, row))) && failures == old(failures) + 1
    {
      var charged := Charged(write, row);
      LoseBooked(queue, running, writes, fates, covers, returned, failures, losses, write, charged);
      CountLoss(charged);
      fates, writes := fates + [Lost(charged)], writes + [write];
    }

    /** The put of `submit_ledger`, which a full queue refuses. */
    method Enqueue(write: Write, row: Option<Goal>) returns (ok: bool)
      requires Books()
      modifies this`queue, this`writes, this`fates, this`failures, this`losses
      ensures Books() && writes == old(writes) + [write]
      ensures ok <==> |old(queue)| < QUEUE_SIZE
      ensures ok ==>
                && fates == old(fates) + [Queued] && queue == old(queue) + [Patch(|old(writes)|)]
                && losses == old(losses) && failures == old(failures)
      ensures !ok ==>
                && fates == old(fates) + [Lost(old(Charged(write, row)))] && queue == old(queue)
                && losses == Charge(old(losses), old(Charged(write, row))) && failures == old(failures) + 1
    {
      ok := |queue| < QUEUE_SIZE;
      if ok { Accept(write); } else { Refuse(write, row); }
    }

    /** `submit_ledger`: the Goal is fixed now. */
    method Submit(manifest: Manifest, usage: bool, goal: Option<Goal>, row: Option<Goal>) returns (ok: bool)
      requires Valid()
      modifies this`queue, this`writes, this`fates, this`failures, this`losses
      ensures Valid() && writes == old(writes) + [Asked(manifest, usage, goal)]
      ensures ok <==> |old(queue)| < QUEUE_SIZE
      ensures ok ==>
                fates == old(fates) + [Queued] && queue == old(queue) + [Patch(|old(writes)|)] && losses == old(losses)
      ensures !ok ==>
                fates == old(fates) + [Lost(old(Charged(Asked(manifest, usage, goal), row)))] && queue == old(queue)
    {
      var write := Asked(manifest, usage, goal);
      ghost var writes0, fates0 := writes, fates;
      ok := Enqueue(write, row);
      NotOpened(writes0, fates0, holding.Some?, pending, opener, latest, answered, writes[|writes0|], fates[|fates0|]);
    }

    /** `submit_partial_usage`: a value already pending is replaced, and nothing is queued. */
    method SubmitPartial(manifest: Manifest, usage: Usage, goal: Option<Goal>, row: Option<Goal>) returns (ok: bool)
      requires Valid()
      modifies this`queue, this`writes, this`fates, this`failures, this`losses, this`pending, this`opener,
               this`latest, this`answered, this`missed
      ensures Valid() && latest == old(latest)[manifest := usage] && ledger == old(ledger)
      ensures manifest in old(pending) ==>
                && ok && pending == old(pending)[manifest := usage] && writes == old(writes) && queue == old(queue)
                && fates == old(fates) && losses == old(losses)
      ensures manifest !in old(pending) ==>
                && writes == old(writes) + [old(Asked(manifest, true, goal)).(partial := true)]
                && (ok <==> |old(queue)| < QUEUE_SIZE)
                && pending == (if ok then old(pending)[manifest := usage] else old(pending))
                && fates == old(fates) + [if ok then Queued else Lost(old(Charged(Asked(manifest, true, goal), row)))]
                && queue == if ok then old(queue) + [Patch(|old(writes)|)] else old(queue)
    {
      if manifest in pending {
        latest, pending := latest[manifest := usage], pending[manifest := usage];
        return true;
      }
      var write := Asked(manifest, true, goal).(partial := true);
      if |queue| < QUEUE_SIZE {
        QueuePartial(write, usage);
        return true;
      }
      RefusePartial(write, usage, row);
      return false;
    }

    method QueuePartial(write: Write, usage: Usage)
      requires Valid() && write.partial && write.manifest !in pending && |queue| < QUEUE_SIZE
      modifies this`queue, this`writes, this`fates, this`pending, this`opener, this`latest
      ensures Valid() && latest == old(latest)[write.manifest := usage]
      ensures pending == old(pending)[write.manifest := usage]
      ensures writes == old(writes) + [write] && fates == old(fates) + [Queued]
      ensures queue == old(queue) + [Patch(|old(writes)|)]
    {
      ghost var writes0, fates0 := writes, fates;
      Accept(write);
      KeepPending(writes0, fates0, write, usage);
    }

    method KeepPending(ghost writes0: seq<Write>, ghost fates0: seq<Fate>, write: Write, usage: Usage)
      requires Coalesced(writes0, fates0, holding.Some?, pending, opener, latest, answered) && |writes0| == |fates0|
      requires writes == writes0 + [write] && fates == fates0 + [Queued] && write.partial && write.manifest !in pending
      requires Kept()
      modifies this`pending, this`opener, this`latest
      ensures Merged() && Kept() && latest == old(latest)[write.manifest := usage]
      ensures pending == old(pending)[write.manifest := usage]
    {
      Opened(writes0, fates0, holding.Some?, pending, opener, latest, answered, write, usage);
      latest, opener := latest[write.manifest := usage], opener[write.manifest := |writes0|];
      pending := pending[write.manifest := usage];
    }

    /** The queue is full: the value is withdrawn again. */
    method RefusePartial(write: Write, usage: Usage, row: Option<Goal>)
      requires Valid() && write.partial && write.manifest !in pending
      modifies this`writes, this`fates, this`failures, this`losses, this`latest, this`answered, this`missed
      ensures Valid() && latest == old(latest)[write.manifest := usage]
      ensures writes == old(writes) + [write] && fates == old(fates) + [Lost(old(Charged(write, row)))]
      ensures losses == Charge(old(losses), old(Charged(write, row))) && failures == old(failures) + 1
    {
      ghost var writes0, fates0 := writes, fates;
      Refuse(write, row);
      WithdrawPending(writes0, fates0, write, usage);
    }

    ghost method WithdrawPending(writes0: seq<Write>, fates0: seq<Fate>, write: Write, usage: Usage)
      requires Coalesced(writes0, fates0, holding.Some?, pending, opener, latest, answered) && |writes0| == |fates0|
      requires |fates| == |fates0| + 1 && fates[|fates0|].Lost? && fates == fates0 + [fates[|fates0|]]
      requires writes == writes0 + [write] && write.manifest !in pending
      requires Kept()
      modifies this`latest, this`answered, this`missed
      ensures Merged() && Kept() && latest == old(latest)[write.manifest := usage]
    {
      missed := missed + {write.manifest};
      NeverOpened(writes0, fates0, holding.Some?, pending, opener, latest, answered, write, fates[|fates0|], usage);
      latest, answered := latest[write.manifest := usage], answered[write.manifest := usage];
    }

    /** `record` could not store a request: its loss is charged like any other. */
    method RecordFailed(manifest: Manifest, goal: Option<Goal>, row: Option<Goal>)
      requires Valid()
      modifies this`writes, this`fates, this`failures, this`losses
      ensures Valid() && writes == old(writes) + [Write(manifest, true, false, goal)]
      ensures fates == old(fates) + [Lost(old(Charged(Write(manifest, true, false, goal), row)))]
    {
      ghost var writes0, fates0 := writes, fates;
      Refuse(Write(manifest, true, false, goal), row);
      NotOpened(writes0, fates0, holding.Some?, pending, opener, latest, answered, writes[|writes0|], fates[|fates0|]);
    }

    // ---- the writer ------------------------------------------------------------------------------------------

    /** The writer takes the next item: a write starts, a fence lets its flush return. */
    method Next()
      requires Valid() && running.None? && |queue| > 0
      modifies this`queue, this`running, this`returned, this`fates
      ensures Valid() && queue == old(queue)[1..]
      ensures old(queue)[0].Patch? ==>
                && running == Some(old(queue)[0].write) && returned == old(returned)
                && old(queue)[0].write < |old(fates)| && fates == old(fates)[old(queue)[0].write := Running]
      ensures old(queue)[0].Fence? ==>
                running.None? && returned == old(returned) + {old(queue)[0].flush} && fates == old(fates)
    {
      match queue[0] {
        case Patch(t) => StartWrite(t);
        case Fence(f) => PassFence(f);
      }
    }

    method StartWrite(t: nat)
      requires Valid() && running.None? && |queue| > 0 && queue[0] == Patch(t)
      modifies this`queue, this`running, this`fates
      ensures Valid() && queue == old(queue)[1..] && running == Some(t)
      ensures t < |old(fates)| && fates == old(fates)[t := Running]
    {
      ghost var fates0 := fates;
      NextBooked(queue, writes, fates, covers, returned, failures, losses);
      Started(writes, fates, t, pending, opener, latest, answered);
      running, queue, fates := Some(t), queue[1..], fates[t := Running];
    }

    method PassFence(f: nat)
      requires Valid() && running.None? && |queue| > 0 && queue[0] == Fence(f)
      modifies this`queue, this`returned
      ensures Valid() && queue == old(queue)[1..] && returned == old(returned) + {f}
    {
      FenceBooked(queue, writes, fates, covers, returned, failures, losses);
      queue, returned := queue[1..], returned + {f};
    }

    /** The running partial write takes its value: there is one, and it is the latest submitted. */
    method TakePending()
      requires Valid() && running.Some? && writes[running.value].partial && holding.None?
      modifies this`pending, this`holding, this`hand, this`opener, this`answered, this`missed
      ensures Valid()
      ensures var m := writes[running.value].manifest;
              && m in latest && m in old(pending) && holding == Some(latest[m]) && pending == old(pending) - {m}
    {
      Take(running.value);
    }

    /** The `pop` of the pending value. */
    method Take(t: nat)
      requires Merged() && Kept() && holding.None? && hand.None? && t < |writes| == |fates| && writes[t].partial
      requires Runs(Some(t), fates)
      modifies this`pending, this`holding, this`hand, this`opener, this`answered, this`missed
      ensures Merged() && Kept() && hand == Some(writes[t].manifest)
      ensures var m := writes[t].manifest;
              && m in latest && m in old(pending) && holding == Some(latest[m]) && pending == old(pending) - {m}
    {
      var m := writes[t].manifest;
      Taken(writes, fates, t, pending, opener, latest, answered);
      holding, hand, missed := Get(pending, m), Some(m), missed - {m};
      answered := answered[m := pending[m]];
      pending, opener := pending - {m}, opener - {m};
    }

    /** The running write has finished: stored, or failed and charged. A partial one stores the value it took. */
    method Finish(stored: bool, row: Option<Goal>)
      requires Valid() && running.Some? && (writes[running.value].partial ==> holding.Some?)
      modifies this`running, this`holding, this`hand, this`fates, this`failures, this`losses, this`ledger, this`missed
      ensures Valid() && running.None? && holding.None?
      ensures var charged := old(Charged(writes[running.value], row));
              && fates == old(fates)[old(running).value := if stored then Stored else Lost(charged)]
              && losses == (if stored then old(losses) else Charge(old(losses), charged))
              && failures == old(failures) + if stored then 0 else 1
      ensures ledger == Handed(old(ledger), writes[old(running).value].manifest, old(holding), stored)
    {
      var t, charged := running.value, Charged(writes[running.value], row);
      var fate := if stored then Stored else Lost(charged);
      ghost var fates0 := fates;
      CloseBooks(t, fate);
      Release(fates0, t, fate, stored);
    }

    /** The finished write lets go of its value. */
    method Release(ghost fates0: seq<Fate>, t: nat, ghost fate: Fate, stored: bool)
      requires Books() && Coalesced(writes, fates0, holding.Some?, pending, opener, latest, answered)
      requires fate.Stored? || fate.Lost?
      requires t < |writes| == |fates0| && (writes[t].partial ==> holding.Some?) && fates == fates0[t := fate]
      requires Runs(Some(t), fates0)
      requires Kept() && hand == if holding.Some? then Some(writes[t].manifest) else None
      modifies this`holding, this`hand, this`ledger, this`missed
      ensures Books() && Merged() && Kept() && holding.None? && hand.None?
      ensures ledger == Handed(old(ledger), writes[t].manifest, old(holding), stored)
    {
      Closed(writes, fates0, t, holding.Some?, fate, pending, opener, latest, answered);
      HandOver(writes[t].manifest, stored);
    }

    /** The value in hand is in the ledger, or missed. */
    method HandOver(m: Manifest, stored: bool)
      requires Kept() && hand == if holding.Some? then Some(m) else None
      modifies this`holding, this`hand, this`ledger, this`missed
      ensures Kept() && holding.None? && hand.None?
      ensures ledger == Handed(old(ledger), m, old(holding), stored)
    {
      if holding.Some? {
        if stored {
          ledger := ledger[m := holding.value];
        } else {
          missed := missed + {m};
        }
      }
      holding, hand := None, None;
    }

    method CloseBooks(t: nat, fate: Fate)
      requires Books() && running == Some(t) && t < |writes| && t < |fates|
      requires (fate.Stored? || fate.Lost?) && Fair(writes[t], fate)
      modifies this`running, this`fates, this`failures, this`losses
      ensures Books() && running.None? && fates == old(fates)[t := fate]
      ensures losses == if fate.Lost? then Charge(old(losses), fate.charged) else old(losses)
      ensures failures == old(failures) + if fate.Lost? then 1 else 0
    {
      FinishBooked(queue, t, writes, fates, covers, returned, failures, losses, fate);
      if fate.Lost? { CountLoss(fate.charged); }
      running, fates := None, fates[t := fate];
    }

    // ---- flushing ---------------------------------------------------------------------------------------------

    /** `flush_ledger` begins: its fence waits for a place in the queue. */
    method Flush() returns (f: nat)
      requires Valid()
      modifies this`flushes, this`putting, this`covers
      ensures Valid() && f == old(flushes) && flushes == f + 1 && putting == old(putting) + {f}
      ensures covers == old(covers)[f := |writes|]
    {
      f := flushes;
      FlushBooked(queue, running, writes, fates, covers, returned, failures, losses, f);
      flushes, putting, covers := f + 1, putting + {f}, covers[f := |fates|];
    }

    method PutFence(f: nat)
      requires Valid() && f in putting && |queue| < QUEUE_SIZE
      modifies this`queue, this`putting
      ensures Valid() && queue == old(queue) + [Fence(f)] && putting == old(putting) - {f}
    {
      FlushBooked(queue, running, writes, fates, covers, returned, failures, losses, f);
      queue, putting := queue + [Fence(f)], putting - {f};
    }

    // ---- Goals ------------------------------------------------------------------------------------------------

    /** `_remember_goal`. */
    method RememberGoal(m: Manifest, goal: Goal)
      requires Valid()
      modifies this`inflight
      ensures Valid() && inflight == Remembered(old(inflight), m, goal, MOST_INFLIGHT) && GoalOf(m) == Some(goal)
    {
      inflight := Remembered(inflight, m, goal, MOST_INFLIGHT);
      RememberedIsFound(old(inflight), m, goal, MOST_INFLIGHT);
    }

    /** `settle_goal`: the request moves to the settled ones and keeps its Goal. */
    method SettleGoal(m: Manifest)
      requires Valid()
      modifies this`inflight, this`settled
      ensures Valid() && inflight == Dropped(old(inflight), m)
      ensures settled == if Lookup(old(inflight), m).Some?
                         then Remembered(old(settled), m, Lookup(old(inflight), m).value, MOST_SETTLED)
                         else old(settled)
      ensures old(GoalOf(m)) == GoalOf(m)
    {
      var goal := Lookup(inflight, m);
      DroppedIsGone(inflight, m);
      inflight := Dropped(inflight, m);
      if goal.Some? {
        RememberedIsFound(settled, m, goal.value, MOST_SETTLED);
        settled := Remembered(settled, m, goal.value, MOST_SETTLED);
      }
    }
  }

  lemma {:induction false} DroppedIsGone(entries: seq<(Manifest, Goal)>, m: Manifest)
    ensures Lookup(Dropped(entries, m), m).None?
  {
    if |entries| > 0 {
      DroppedIsGone(entries[..|entries| - 1], m);
      var before, last := Dropped(entries[..|entries| - 1], m), entries[|entries| - 1];
      if last.0 != m {
        assert (before + [last])[..|before|] == before;
      }
    }
  }

  /** A partial write has been queued for a request without one. */
  lemma Opened(writes: seq<Write>, fates: seq<Fate>, holding: bool, pending: map<Manifest, Usage>,
               opener: map<Manifest, nat>, latest: map<Manifest, Usage>, answered: map<Manifest, Usage>,
               write: Write, usage: Usage)
    requires Coalesced(writes, fates, holding, pending, opener, latest, answered) && |writes| == |fates|
    requires write.partial && write.manifest !in pending
    ensures var m := write.manifest;
            Coalesced(writes + [write], fates + [Queued], holding, pending[m := usage], opener[m := |writes|],
                      latest[m := usage], answered)
  {
    var more, after, opener' := writes + [write], fates + [Queued], opener[write.manifest := |writes|];
    forall m | m in opener' ensures Open(more, after, holding, opener'[m]) && more[opener'[m]].manifest == m {
      assert m in opener ==> Open(writes, fates, holding, opener[m]);
    }
    forall t: nat | Open(more, after, holding, t)
      ensures more[t].manifest in opener' && opener'[more[t].manifest] == t
    {
      assert t < |writes| ==> Open(writes, fates, holding, t);
    }
  }

  /** A write that takes no pending value. */
  lemma NotOpened(writes: seq<Write>, fates: seq<Fate>, holding: bool, pending: map<Manifest, Usage>,
                  opener: map<Manifest, nat>, latest: map<Manifest, Usage>, answered: map<Manifest, Usage>,
                  write: Write, fate: Fate)
    requires Coalesced(writes, fates, holding, pending, opener, latest, answered) && |writes| == |fates|
    requires !write.partial || fate.Lost?
    ensures Coalesced(writes + [write], fates + [fate], holding, pending, opener, latest, answered)
  {
    var more, after := writes + [write], fates + [fate];
    forall t: nat ensures Open(more, after, holding, t) <==> t < |writes| && Open(writes, fates, holding, t) {}
    OpenUnchanged(writes, fates, holding, more, after, holding, pending, opener, latest, answered);
  }

  /** ... or has been refused. */
  lemma NeverOpened(writes: seq<Write>, fates: seq<Fate>, holding: bool, pending: map<Manifest, Usage>,
                    opener: map<Manifest, nat>, latest: map<Manifest, Usage>, answered: map<Manifest, Usage>,
                    write: Write, fate: Fate, usage: Usage)
    requires Coalesced(writes, fates, holding, pending, opener, latest, answered) && |writes| == |fates|
    requires fate.Lost? && write.manifest !in pending
    ensures var m := write.manifest;
            Coalesced(writes + [write], fates + [fate], holding, pending, opener, latest[m := usage],
                      answered[m := usage])
  {
    NotOpened(writes, fates, holding, pending, opener, latest, answered, write, fate);
  }

  /** The running partial write finds its value and takes it. */
  lemma Taken(writes: seq<Write>, fates: seq<Fate>, t: nat, pending: map<Manifest, Usage>,
              opener: map<Manifest, nat>, latest: map<Manifest, Usage>, answered: map<Manifest, Usage>)
    requires Coalesced(writes, fates, false, pending, opener, latest, answered)
    requires t < |writes| == |fates| && writes[t].partial && Runs(Some(t), fates)
    ensures writes[t].manifest in pending
    ensures var m := writes[t].manifest;
            Coalesced(writes, fates, true, pending - {m}, opener - {m}, latest, answered[m := pending[m]])
  {
    var m := writes[t].manifest;
    assert RunsAt(Some(t), fates, t) && Open(writes, fates, false, t);
    forall n | n in opener - {m} ensures Open(writes, fates, true, opener[n]) && writes[opener[n]].manifest == n {
      assert Open(writes, fates, false, opener[n]) && RunsAt(Some(t), fates, opener[n]);
    }
    forall u: nat | Open(writes, fates, true, u)
      ensures writes[u].manifest in opener - {m} && opener[writes[u].manifest] == u
    {
      assert Open(writes, fates, false, u);
    }
  }

  /** The running write, which has taken its value if it needs one, has finished. */
  lemma Closed(writes: seq<Write>, fates: seq<Fate>, t: nat, holding: bool, fate: Fate, pending: map<Manifest, Usage>,
               opener: map<Manifest, nat>, latest: map<Manifest, Usage>, answered: map<Manifest, Usage>)
    requires Coalesced(writes, fates, holding, pending, opener, latest, answered)
    requires t < |writes| == |fates| && (writes[t].partial ==> holding) && (fate.Stored? || fate.Lost?)
    requires Runs(Some(t), fates)
    ensures Coalesced(writes, fates[t := fate], false, pending, opener, latest, answered)
  {
    forall u | 0 <= u < |fates| ensures fates[u].Running? ==> u == t {
      assert RunsAt(Some(t), fates, u);
    }
    assert RunsAt(Some(t), fates, t);
    OpenUnchanged(writes, fates, holding, writes, fates[t := fate], false, pending, opener, latest, answered);
  }

  lemma Started(writes: seq<Write>, fates: seq<Fate>, t: nat, pending: map<Manifest, Usage>,
                opener: map<Manifest, nat>, latest: map<Manifest, Usage>, answered: map<Manifest, Usage>)
    requires Coalesced(writes, fates, false, pending, opener, latest, answered)
    requires t < |writes| == |fates| && fates[t].Queued?
    ensures Coalesced(writes, fates[t := Running], false, pending, opener, latest, answered)
  {
    OpenUnchanged(writes, fates, false, writes, fates[t := Running], false, pending, opener, latest, answered);
  }

  // ---- the once-only totals of patch_usage -----------------------------------------------------------------------

  /** The token columns of the totals. */
  datatype Column =
    | InputTokens | OutputTokens | TotalTokens | TokenVolume | PromptTokenVolume | CachedInputTokens
    | UncachedInputTokens | ReasoningTokens | CacheWriteInputTokens | ToolPromptTokens

  function AllColumns(): set<Column> {
    {InputTokens, OutputTokens, TotalTokens, TokenVolume, PromptTokenVolume, CachedInputTokens, UncachedInputTokens,
     ReasoningTokens, CacheWriteInputTokens, ToolPromptTokens}
  }

  lemma InColumns(c: Column)
    ensures c in AllColumns()
  {
    match c
    case InputTokens =>
    case OutputTokens =>
    case TotalTokens =>
    case TokenVolume =>
    case PromptTokenVolume =>
    case CachedInputTokens =>
    case UncachedInputTokens =>
    case ReasoningTokens =>
    case CacheWriteInputTokens =>
    case ToolPromptTokens =>
  }

  /** One final usage report; a number that is missing or no number is absent. */
  datatype Report = Report(manifest: Manifest, numbers: map<Column, int>, providerReported: bool, estimated: bool)

  /** A reported number as the totals take it: never below zero. */
  function Amount(report: Report, c: Column): nat {
    if c !in report.numbers || report.numbers[c] < 0 then 0 else report.numbers[c]
  }

  function AmountOf(counted: seq<Report>, c: Column, n: nat): nat
    requires n <= |counted|
  {
    if n == 0 then 0 else AmountOf(counted, c, n - 1) + Amount(counted[n - 1], c)
  }

  function ProviderReports(counted: seq<Report>, n: nat): nat
    requires n <= |counted|
  {
    if n == 0 then 0 else ProviderReports(counted, n - 1) + if counted[n - 1].providerReported then 1 else 0
  }

  function EstimatedReports(counted: seq<Report>, n: nat): nat
    requires n <= |counted|
  {
    if n == 0 then 0 else EstimatedReports(counted, n - 1) + if counted[n - 1].estimated then 1 else 0
  }

  lemma {:induction false} SumsAppend(counted: seq<Report>, report: Report, n: nat)
    requires n <= |counted|
    ensures forall c :: AmountOf(counted + [report], c, n) == AmountOf(counted, c, n)
    ensures ProviderReports(counted + [report], n) == ProviderReports(counted, n)
    ensures EstimatedReports(counted + [report], n) == EstimatedReports(counted, n)
  {
    if n > 0 {
      SumsAppend(counted, report, n - 1);
    }
  }

  /** Two reports counted for one request lie further apart than the bounded order remembers. */
  ghost predicate OnceWithin(counted: seq<Report>, most: nat) {
    forall i, j :: 0 <= i < j < |counted| && counted[i].manifest == counted[j].manifest ==> j - i > most
  }

  /** `order` holds the requests of the last `most` counted reports. */
  predicate Recent(order: seq<Manifest>, counted: seq<Report>, most: nat) {
    var n := if |counted| < most then |counted| else most;
    |order| == n && forall i :: 0 <= i < n ==> order[i] == counted[|counted| - n + i].manifest
  }

  /** A report for a request that is not remembered is far enough from every earlier one. */
  lemma OnceMore(order: seq<Manifest>, counted: seq<Report>, most: nat, report: Report)
    requires OnceWithin(counted, most) && Recent(order, counted, most) && report.manifest !in order
    ensures OnceWithin(counted + [report], most)
  {
    var n := |order|;
    forall i | |counted| - n <= i < |counted| ensures counted[i].manifest != report.manifest {
      assert order[i - (|counted| - n)] in order;
    }
  }

  class Totals {
    const most: nat
    var order: seq<Manifest>
    var ids: set<Manifest>
    var calls: nat
    var tokens: map<Column, nat>
    var providerReported: nat
    var estimated: nat
    ghost var counted: seq<Report>

    ghost predicate Valid()
      reads this
    {
      && Recent(order, counted, most) && OnceWithin(counted, most) && most > 0
      && (forall m :: m in ids <==> m in order)
      && Summed()
    }

    /** The totals are the sums over the counted reports. */
    ghost predicate Summed()
      reads this`calls, this`tokens, this`providerReported, this`estimated, this`counted
    {
      && calls == |counted|
      && (forall c :: c in tokens && tokens[c] == AmountOf(counted, c, |counted|))
      && providerReported == ProviderReports(counted, |counted|)
      && estimated == EstimatedReports(counted, |counted|)
    }

    constructor (most: nat)
      requires most > 0
      ensures Valid() && this.most == most && calls == 0 && counted == []
    {
      this.most := most;
      order, ids, calls, counted := [], {}, 0, [];
      tokens := map c: Column | c in AllColumns() :: 0;
      providerReported, estimated := 0, 0;
      new;
      forall c ensures c in tokens {
        InColumns(c);
      }
    }

    /** The totals step of `patch_usage`: a request still remembered is not counted again. */
    method Count(report: Report)
      requires Valid()
      modifies this
      ensures Valid()
      ensures report.manifest in old(order) ==>
                && counted == old(counted) && calls == old(calls) && tokens == old(tokens)
                && providerReported == old(providerReported) && estimated == old(estimated)
      ensures report.manifest !in old(order) ==>
                counted == old(counted) + [report] && order[|order| - 1] == report.manifest
    {
      if report.manifest in ids { return; }
      Remember(report);
      Add(report);
    }

    /** The bounded memory of counted requests. */
    method Remember(report: Report)
      requires Valid() && report.manifest !in order
      modifies this`order, this`ids
      ensures Recent(order, counted + [report], most) && OnceWithin(counted + [report], most)
      ensures (forall m :: m in ids <==> m in order) && |order| > 0 && order[|order| - 1] == report.manifest
    {
      OnceMore(order, counted, most, report);
      Rolled(order, counted, most, report);
      if |order| >= most {
        Unique(order, counted, most);
        ids := ids - {order[0]};
        order := order[1..];
      }
      order, ids := order + [report.manifest], ids + {report.manifest};
    }

    method Add(report: Report)
      requires Summed()
      modifies this`calls, this`tokens, this`providerReported, this`estimated, this`counted
      ensures Summed() && counted == old(counted) + [report]
    {
      SumsAppend(counted, report, |counted|);
      calls := calls + 1;
      AddColumns(report);
      if report.providerReported { providerReported := providerReported + 1; }
      if report.estimated { estimated := estimated + 1; }
      counted := counted + [report];
    }

    method AddColumns(report: Report)
      requires forall c :: c in tokens
      modifies this`tokens
      ensures forall c :: c in tokens && tokens[c] == old(tokens)[c] + Amount(report, c)
    {
      var todo: set<Column> := tokens.Keys;
      while todo != {}
        invariant forall c :: c in tokens && tokens[c] == old(tokens)[c] + if c in todo then 0 else Amount(report, c)
        decreases todo
      {
        var c :| c in todo;
        tokens := tokens[c := tokens[c] + Amount(report, c)];
        todo := todo - {c};
      }
    }
  }

  lemma Rolled(order: seq<Manifest>, counted: seq<Report>, most: nat, report: Report)
    requires Recent(order, counted, most) && most > 0
    ensures Recent((if |order| >= most then order[1..] else order) + [report.manifest], counted + [report], most)
  {}

  /** No request is remembered twice. */
  lemma Unique(order: seq<Manifest>, counted: seq<Report>, most: nat)
    requires Recent(order, counted, most) && OnceWithin(counted, most)
    ensures forall i, j :: 0 <= i < j < |order| ==> order[i] != order[j]
  {
    var k := |counted| - |order|;
    forall i, j | 0 <= i < j < |order| ensures order[i] != order[j] {
      assert counted[k + i].manifest == order[i] && counted[k + j].manifest == order[j];
    }
  }
}
