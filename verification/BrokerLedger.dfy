/**
The ledger of `backend/capability_broker.py`: admission, dispatch, finalisation, replay and eviction of
calls by any number of interleaved callers. Every method is one stretch that no other caller can
enter; a log records what happened, and the promises are stated about the log.
*/
module BrokerLedger {
  import opened Common
  import opened BrokerReceipts

  type Key = nat
  type Fingerprint = nat
  type CallId = nat

  datatype Event =
    | AdmitEvent(key: Key, call: CallId, fingerprint: Fingerprint)
    | DispatchEvent(key: Key, call: CallId)
    | FinalEvent(key: Key, call: CallId, receipt: Receipt)
    | EvictEvent(key: Key)
    | ReplayEvent(key: Key, call: CallId, fingerprint: Fingerprint, receipt: Receipt)
    | RefuseEvent(key: Key, call: CallId)

  // ---- the protocol, stated about logs -------------------------------------------------------------

  /** What a log says about one key. */
  datatype KeyState = Free | Held(call: CallId, fingerprint: Fingerprint, dispatched: bool)
                    | Done(fingerprint: Fingerprint, receipt: Receipt)

  function Next(s: KeyState, e: Event): KeyState {
    match e
    case AdmitEvent(_, call, fingerprint) => Held(call, fingerprint, false)
    case DispatchEvent(_, _) => if s.Held? then s.(dispatched := true) else s
    case FinalEvent(_, _, receipt) => if s.Held? then Done(s.fingerprint, receipt) else s
    case EvictEvent(_) => Free
    case _ => s
  }

  function StateOf(log: seq<Event>, key: Key): KeyState {
    if log == [] then Free
    else
      var e := log[|log| - 1];
      var before := StateOf(log[..|log| - 1], key);
      if e.key == key then Next(before, e) else before
  }

  /** The event may happen in this state of its key. */
  predicate Allowed(s: KeyState, e: Event) {
    match e
    case AdmitEvent(_, _, _) => s.Free?
    case DispatchEvent(_, call) => s.Held? && s.call == call && !s.dispatched
    case FinalEvent(_, call, receipt) =>
      s.Held? && s.call == call && receipt.dispatched == s.dispatched && SafeReceipt(receipt)
    case EvictEvent(_) => s.Done?
    case ReplayEvent(_, _, fingerprint, receipt) =>
      s.Done? && s.fingerprint == fingerprint && receipt == s.receipt.(deduplicated := true)
    case RefuseEvent(_, _) => !s.Free?
  }

  predicate Legal(log: seq<Event>) {
    log == [] || (Legal(log[..|log| - 1]) && Allowed(StateOf(log[..|log| - 1], log[|log| - 1].key), log[|log| - 1]))
  }

  lemma {:induction false} LegalPrefix(log: seq<Event>, n: nat)
    requires Legal(log) && n <= |log|
    ensures Legal(log[..n])
    ensures n < |log| ==> Allowed(StateOf(log[..n], log[n].key), log[n])
  {
    if n == |log| {
      assert log[..n] == log;
    } else if n < |log| - 1 {
      LegalPrefix(log[..|log| - 1], n);
      assert log[..|log| - 1][..n] == log[..n];
    }
  }

  lemma StateStep(log: seq<Event>, n: nat, key: Key)
    requires n < |log|
    ensures StateOf(log[..n + 1], key) ==
            if log[n].key == key then Next(StateOf(log[..n], key), log[n]) else StateOf(log[..n], key)
  {
    assert log[..n + 1][..n] == log[..n];
  }

  predicate EvictedBetween(log: seq<Event>, i: nat, j: nat, key: Key) {
    exists e: nat | i < e < j && e < |log| :: log[e] == EvictEvent(key)
  }

  /** Without an eviction a key that was dispatched stays dispatched or done. */
  lemma {:induction false} StaysSpent(log: seq<Event>, i: nat, n: nat, key: Key)
    requires Legal(log) && i < n <= |log| && log[i].key == key && (log[i].DispatchEvent? || log[i].FinalEvent?)
    requires !EvictedBetween(log, i, n, key)
    ensures var s := StateOf(log[..n], key);
            s.Done? || (log[i].DispatchEvent? && s.Held? && s.dispatched)
    ensures log[i].FinalEvent? ==> StateOf(log[..n], key).receipt == log[i].receipt
  {
    LegalPrefix(log, n - 1);
    StateStep(log, n - 1, key);
    if i < n - 1 {
      assert !EvictedBetween(log, i, n - 1, key);
      StaysSpent(log, i, n - 1, key);
    }
  }

  /** A handler is dispatched at most once per key between an admission and its eviction. */
  lemma AtMostOneDispatch(log: seq<Event>, i: nat, j: nat)
    requires Legal(log) && i < j < |log| && log[i].DispatchEvent? && log[j].DispatchEvent? && log[i].key == log[j].key
    ensures EvictedBetween(log, i, j, log[i].key)
  {
    LegalPrefix(log, j);
    if !EvictedBetween(log, i, j, log[i].key) {
      StaysSpent(log, i, j, log[i].key);
    }
  }

  /** An admission gets at most one terminal entry before it is evicted. */
  lemma AtMostOneTerminal(log: seq<Event>, i: nat, j: nat)
    requires Legal(log) && i < j < |log| && log[i].FinalEvent? && log[j].FinalEvent? && log[i].key == log[j].key
    ensures EvictedBetween(log, i, j, log[i].key)
  {
    LegalPrefix(log, j);
    if !EvictedBetween(log, i, j, log[i].key) {
      StaysSpent(log, i, j, log[i].key);
    }
  }

  /** A key that is done was finalised, with that receipt, and not evicted since. */
  lemma {:induction false} DoneWasFinal(log: seq<Event>, n: nat, key: Key) returns (i: nat)
    requires Legal(log) && n <= |log| && StateOf(log[..n], key).Done?
    ensures i < n && log[i].FinalEvent? && log[i].key == key && log[i].receipt == StateOf(log[..n], key).receipt
    ensures !EvictedBetween(log, i, n, key)
  {
    StateStep(log, n - 1, key);
    LegalPrefix(log, n - 1);
    if log[n - 1].key == key && log[n - 1].FinalEvent? {
      i := n - 1;
    } else {
      i := DoneWasFinal(log, n - 1, key);
    }
  }

  /** A replay returns the receipt of the retained terminal entry. */
  lemma ReplayReturnsRetained(log: seq<Event>, j: nat) returns (i: nat)
    requires Legal(log) && j < |log| && log[j].ReplayEvent?
    ensures i < j && log[i].FinalEvent? && log[i].key == log[j].key && !EvictedBetween(log, i, j, log[j].key)
    ensures log[j].receipt == log[i].receipt.(deduplicated := true)
  {
    LegalPrefix(log, j);
    i := DoneWasFinal(log, j, log[j].key);
  }

  /** The keys in the order in which they were finalised. */
  function FinalOrder(log: seq<Event>): seq<Key> {
    if log == [] then []
    else
      var e := log[|log| - 1];
      FinalOrder(log[..|log| - 1]) + if e.FinalEvent? then [e.key] else []
  }

  function Last(n: nat, s: seq<Key>): seq<Key> {
    if |s| <= n then s else s[|s| - n..]
  }

  /** How often a call was admitted, and how often it got a terminal entry. */
  function Admissions(log: seq<Event>, call: CallId): nat {
    if log == [] then 0
    else
      var e := log[|log| - 1];
      Admissions(log[..|log| - 1], call) + if e.AdmitEvent? && e.call == call then 1 else 0
  }

  function Endings(log: seq<Event>, call: CallId): nat {
    if log == [] then 0
    else
      var e := log[|log| - 1];
      Endings(log[..|log| - 1], call) + if e.FinalEvent? && e.call == call then 1 else 0
  }

  // ---- the ledger ----------------------------------------------------------------------------------

  /** An admitted call owns its entry until the entry becomes terminal. */
  datatype Entry =
    | InFlight(fingerprint: Fingerprint, owner: CallId)
    | Terminal(fingerprint: Fingerprint, receipt: Receipt)

  datatype Call = Call(key: Key, fingerprint: Fingerprint, receiptId: nat, stage: Stage)

  /** What an invocation gets back at the ledger: its own admission, a stored receipt, or a refusal. */
  datatype Reply = Admission | Replay(receipt: Receipt) | Refusal(inFlight: bool)

  /** The terminal keys in the order of the ledger. */
  function Terminals(order: seq<Key>, entries: map<Key, Entry>): seq<Key> {
    if order == [] then []
    else
      var k := order[|order| - 1];
      Terminals(order[..|order| - 1], entries) + if k in entries && entries[k].Terminal? then [k] else []
  }

  function Without(order: seq<Key>, key: Key): seq<Key> {
    if order == [] then []
    else
      var k := order[|order| - 1];
      Without(order[..|order| - 1], key) + if k == key then [] else [k]
  }

  lemma UniqueAppend(order: seq<Key>, key: Key)
    requires Unique(order) && key !in order
    ensures Unique(order + [key])
    ensures forall k :: k in order + [key] <==> k in order || k == key
  {
  }

  lemma TerminalsAppend(order: seq<Key>, k: Key, entries: map<Key, Entry>)
    ensures Terminals(order + [k], entries)
         == if k in entries && entries[k].Terminal? then Terminals(order, entries) + [k] else Terminals(order, entries)
  {
    assert (order + [k])[..|order|] == order;
  }

  lemma WithoutStep(order: seq<Key>, key: Key)
    requires order != []
    ensures var w, k := Without(order[..|order| - 1], key), order[|order| - 1];
            Without(order, key) == if k == key then w else w + [k]
  {
  }

  lemma {:induction false} WithoutMembers(order: seq<Key>, key: Key)
    ensures forall k :: k in Without(order, key) <==> k in order && k != key
    ensures Unique(order) ==> Unique(Without(order, key))
  {
    if order != [] {
      WithoutMembers(order[..|order| - 1], key);
      WithoutStep(order, key);
      var w := Without(order[..|order| - 1], key);
      forall i | 0 <= i < |w|
        ensures w[i] in order[..|order| - 1]
      {
      }
    }
  }

  ghost predicate Unique(order: seq<Key>) {
    forall i, j :: 0 <= i < j < |order| ==> order[i] != order[j]
  }

  /** Removing a key that is not terminal leaves the terminal keys alone. */
  lemma {:induction false} TerminalsWithout(order: seq<Key>, entries: map<Key, Entry>, key: Key)
    requires key in entries ==> !entries[key].Terminal?
    ensures Terminals(Without(order, key), entries) == Terminals(order, entries)
  {
    if order != [] {
      TerminalsWithout(order[..|order| - 1], entries, key);
      WithoutStep(order, key);
      TerminalsAppend(Without(order[..|order| - 1], key), order[|order| - 1], entries);
    }
  }

  /** Entries of keys that are not in the order do not matter. */
  lemma {:induction false} TerminalsAgree(order: seq<Key>, a: map<Key, Entry>, b: map<Key, Entry>)
    requires forall k :: k in order ==> Get(a, k) == Get(b, k)
    ensures Terminals(order, a) == Terminals(order, b)
  {
    if order != [] {
      assert Get(a, order[|order| - 1]) == Get(b, order[|order| - 1]);
      TerminalsAgree(order[..|order| - 1], a, b);
    }
  }

  lemma {:induction false} TerminalsInOrder(order: seq<Key>, entries: map<Key, Entry>, k: Key)
    ensures k in Terminals(order, entries) <==> k in order && k in entries && entries[k].Terminal?
    ensures Unique(order) ==> Unique(Terminals(order, entries))
  {
    if order != [] {
      TerminalsInOrder(order[..|order| - 1], entries, k);
      var rest := Terminals(order[..|order| - 1], entries);
      forall i | 0 <= i < |rest|
        ensures rest[i] in order[..|order| - 1]
      {
        TerminalsInOrder(order[..|order| - 1], entries, rest[i]);
      }
    }
  }

  /** Dropping the first terminal key from the order drops it from the terminal keys. */
  lemma {:induction false} TerminalsWithoutFirst(order: seq<Key>, entries: map<Key, Entry>)
    requires Unique(order) && Terminals(order, entries) != []
    ensures Terminals(Without(order, Terminals(order, entries)[0]), entries) == Terminals(order, entries)[1..]
  {
    var n := |order| - 1;
    var key, rest := Terminals(order, entries)[0], Terminals(order[..n], entries);
    WithoutStep(order, key);
    TerminalsAppend(Without(order[..n], key), order[n], entries);
    if rest == [] {
      TerminalsWithoutNone(order[..n], entries, key);
    } else {
      TerminalsWithoutFirst(order[..n], entries);
      TerminalsInOrder(order[..n], entries, key);
      assert order[n] != key;
    }
  }

  lemma {:induction false} TerminalsWithoutNone(order: seq<Key>, entries: map<Key, Entry>, key: Key)
    requires Terminals(order, entries) == []
    ensures Terminals(Without(order, key), entries) == []
  {
    if order != [] {
      TerminalsWithoutNone(order[..|order| - 1], entries, key);
      WithoutStep(order, key);
      TerminalsAppend(Without(order[..|order| - 1], key), order[|order| - 1], entries);
    }
  }

  /** What the tables say about one key. */
  function Seen(entries: map<Key, Entry>, calls: map<CallId, Call>, key: Key): KeyState {
    if key !in entries then Free
    else
      match entries[key]
      case InFlight(fingerprint, owner) => Held(owner, fingerprint, owner in calls && calls[owner].stage.Dispatched?)
      case Terminal(fingerprint, receipt) => Done(fingerprint, receipt)
  }

  /** Every in-flight entry belongs to exactly one unfinished call, and every unfinished call has its entry. */
  ghost predicate Owned(entries: map<Key, Entry>, calls: map<CallId, Call>) {
    && (forall k :: k in entries && entries[k].InFlight? ==>
          var c := entries[k].owner;
          && c in calls && calls[c].key == k && calls[c].fingerprint == entries[k].fingerprint
          && !calls[c].stage.Finished?)
    && (forall c :: c in calls && !calls[c].stage.Finished? ==>
          calls[c].key in entries && entries[calls[c].key] == InFlight(calls[c].fingerprint, c))
  }

  /** The tables are what a legal log says. */
  ghost predicate Explained(log: seq<Event>, entries: map<Key, Entry>, calls: map<CallId, Call>) {
    Legal(log) && forall k :: StateOf(log, k) == Seen(entries, calls, k)
  }

  /** The order covers the entries, and the terminal ones are the most recently finalised keys. */
  ghost predicate Ordered(log: seq<Event>, order: seq<Key>, entries: map<Key, Entry>, capacity: nat) {
    && Unique(order) && (forall k :: k in order <==> k in entries)
    && Terminals(order, entries) == Last(capacity, FinalOrder(log))
  }

  /** One legal event on one key keeps log and tables in step. */
  lemma ExplainedStep(log: seq<Event>, entries: map<Key, Entry>, calls: map<CallId, Call>, e: Event,
                      entries': map<Key, Entry>, calls': map<CallId, Call>)
    requires Explained(log, entries, calls) && Allowed(StateOf(log, e.key), e)
    requires Seen(entries', calls', e.key) == Next(StateOf(log, e.key), e)
    requires forall k :: k != e.key ==> Seen(entries', calls', k) == Seen(entries, calls, k)
    ensures Explained(log + [e], entries', calls')
    ensures FinalOrder(log + [e]) == FinalOrder(log) + if e.FinalEvent? then [e.key] else []
  {
    assert (log + [e])[..|log|] == log;
  }

  /** What an invocation gets when its key is already in the ledger. */
  function Lookup(prior: Entry, fingerprint: Fingerprint): Reply {
    match prior
    case InFlight(_, _) => Refusal(true)
    case Terminal(known, receipt) =>
      if known == fingerprint then Replay(receipt.(deduplicated := true)) else Refusal(false)
  }

  ghost predicate Sound(log: seq<Event>, order: seq<Key>, entries: map<Key, Entry>, calls: map<CallId, Call>,
                        capacity: nat)
  {
    Owned(entries, calls) && Explained(log, entries, calls) && Ordered(log, order, entries, capacity)
  }

  /** A replay or a refusal changes nothing but the log. */
  lemma LookupSound(log: seq<Event>, order: seq<Key>, entries: map<Key, Entry>, calls: map<CallId, Call>,
                    capacity: nat, e: Event)
    requires Sound(log, order, entries, calls, capacity)
    requires e.ReplayEvent? || e.RefuseEvent?
    requires Allowed(Seen(entries, calls, e.key), e)
    ensures Sound(log + [e], order, entries, calls, capacity)
  {
    assert StateOf(log, e.key) == Seen(entries, calls, e.key);
    ExplainedStep(log, entries, calls, e, entries, calls);
    assert FinalOrder(log + [e]) == FinalOrder(log);
  }

  /** A new entry at the end that is not terminal. */
  lemma OrderedAdmission(order: seq<Key>, entries: map<Key, Entry>, key: Key, entry: Entry)
    requires Unique(order) && (forall k :: k in order <==> k in entries) && key !in entries && entry.InFlight?
    ensures Unique(order + [key]) && forall k :: k in order + [key] <==> k in entries[key := entry]
    ensures Terminals(order + [key], entries[key := entry]) == Terminals(order, entries)
  {
    TerminalsAgree(order, entries, entries[key := entry]);
    TerminalsAppend(order, key, entries[key := entry]);
    UniqueAppend(order, key);
  }

  lemma OwnedAdmission(entries: map<Key, Entry>, calls: map<CallId, Call>, call: CallId, admitted: Call)
    requires Owned(entries, calls) && admitted.key !in entries && call !in calls && admitted.stage.Admitted?
    ensures var entries' := entries[admitted.key := InFlight(admitted.fingerprint, call)];
            var calls' := calls[call := admitted];
            && Owned(entries', calls')
            && (forall k :: k != admitted.key ==> Seen(entries', calls', k) == Seen(entries, calls, k))
            && Seen(entries', calls', admitted.key) == Held(call, admitted.fingerprint, false)
  {
  }

  /** Admission of a free key under a fresh call. */
  lemma AdmitSound(log: seq<Event>, order: seq<Key>, entries: map<Key, Entry>, calls: map<CallId, Call>,
                   capacity: nat, call: CallId, admitted: Call)
    requires Sound(log, order, entries, calls, capacity)
    requires admitted.key !in entries && call !in calls && admitted.stage.Admitted?
    ensures Sound(log + [AdmitEvent(admitted.key, call, admitted.fingerprint)], order + [admitted.key],
                  entries[admitted.key := InFlight(admitted.fingerprint, call)], calls[call := admitted], capacity)
  {
    var e := AdmitEvent(admitted.key, call, admitted.fingerprint);
    var entry := InFlight(admitted.fingerprint, call);
    assert StateOf(log, admitted.key) == Seen(entries, calls, admitted.key);
    OwnedAdmission(entries, calls, call, admitted);
    ExplainedStep(log, entries, calls, e, entries[admitted.key := entry], calls[call := admitted]);
    OrderedAdmission(order, entries, admitted.key, entry);
  }

  /** A change of a call's stage that the log does not see. */
  lemma ResolveSound(log: seq<Event>, order: seq<Key>, entries: map<Key, Entry>, calls: map<CallId, Call>,
                     capacity: nat, call: CallId, stage: Stage)
    requires Sound(log, order, entries, calls, capacity)
    requires call in calls && calls[call].stage.Admitted? && stage.Resolved?
    ensures Sound(log, order, entries, calls[call := calls[call].(stage := stage)], capacity)
  {
    var calls' := calls[call := calls[call].(stage := stage)];
    forall k
      ensures Seen(entries, calls', k) == Seen(entries, calls, k)
    {
    }
  }

  /** The handler is entered. */
  lemma DispatchSound(log: seq<Event>, order: seq<Key>, entries: map<Key, Entry>, calls: map<CallId, Call>,
                      capacity: nat, call: CallId, effect: Effect)
    requires Sound(log, order, entries, calls, capacity)
    requires call in calls && calls[call].stage == Resolved(effect)
    ensures Sound(log + [DispatchEvent(calls[call].key, call)], order, entries,
                  calls[call := calls[call].(stage := Dispatched(effect))], capacity)
  {
    var calls', key := calls[call := calls[call].(stage := Dispatched(effect))], calls[call].key;
    assert StateOf(log, key) == Seen(entries, calls, key);
    forall k | k != key
      ensures Seen(entries, calls', k) == Seen(entries, calls, k)
    {
    }
    ExplainedStep(log, entries, calls, DispatchEvent(key, call), entries, calls');
    assert FinalOrder(log + [DispatchEvent(key, call)]) == FinalOrder(log);
  }

  /** The tables while terminal entries beyond the capacity are being evicted. */
  ghost predicate Evicting(log: seq<Event>, order: seq<Key>, entries: map<Key, Entry>, calls: map<CallId, Call>,
                           terminal: seq<Key>)
  {
    && Owned(entries, calls) && Explained(log, entries, calls)
    && Unique(order) && (forall k :: k in order <==> k in entries)
    && Terminals(order, entries) == terminal
  }

  /** A terminal entry takes the place of an in-flight one and moves to the end. */
  lemma OrderedFinal(order: seq<Key>, entries: map<Key, Entry>, key: Key, entry: Entry)
    requires Unique(order) && (forall k :: k in order <==> k in entries)
    requires key in entries && entries[key].InFlight? && entry.Terminal?
    ensures Unique(Without(order, key) + [key])
    ensures forall k :: k in Without(order, key) + [key] <==> k in entries[key := entry]
    ensures Terminals(Without(order, key) + [key], entries[key := entry]) == Terminals(order, entries) + [key]
  {
    WithoutMembers(order, key);
    TerminalsWithout(order, entries, key);
    TerminalsAgree(Without(order, key), entries, entries[key := entry]);
    TerminalsAppend(Without(order, key), key, entries[key := entry]);
    UniqueAppend(Without(order, key), key);
  }

  lemma OwnedFinal(entries: map<Key, Entry>, calls: map<CallId, Call>, call: CallId, receipt: Receipt)
    requires Owned(entries, calls) && call in calls && !calls[call].stage.Finished?
    ensures var key, fingerprint := calls[call].key, calls[call].fingerprint;
            var entries' := entries[key := Terminal(fingerprint, receipt)];
            var calls' := calls[call := calls[call].(stage := Finished)];
            && Owned(entries', calls')
            && (forall k :: k != key ==> Seen(entries', calls', k) == Seen(entries, calls, k))
            && Seen(entries', calls', key) == Done(fingerprint, receipt)
            && Seen(entries, calls, key) == Held(call, fingerprint, calls[call].stage.Dispatched?)
  {
  }

  /** The in-flight entry becomes terminal and moves to the end. */
  lemma FinalSound(log: seq<Event>, order: seq<Key>, entries: map<Key, Entry>, calls: map<CallId, Call>,
                   capacity: nat, call: CallId, receipt: Receipt, key: Key, fingerprint: Fingerprint)
    requires Sound(log, order, entries, calls, capacity)
    requires call in calls && !calls[call].stage.Finished?
    requires receipt.dispatched == calls[call].stage.Dispatched? && SafeReceipt(receipt)
    requires key == calls[call].key && fingerprint == calls[call].fingerprint
    ensures Evicting(log + [FinalEvent(key, call, receipt)], Without(order, key) + [key],
                     entries[key := Terminal(fingerprint, receipt)], calls[call := calls[call].(stage := Finished)],
                     Last(capacity, FinalOrder(log)) + [key])
    ensures FinalOrder(log + [FinalEvent(key, call, receipt)]) == FinalOrder(log) + [key]
  {
    var entry := Terminal(fingerprint, receipt);
    assert StateOf(log, key) == Seen(entries, calls, key);
    OwnedFinal(entries, calls, call, receipt);
    ExplainedStep(log, entries, calls, FinalEvent(key, call, receipt), entries[key := entry],
                  calls[call := calls[call].(stage := Finished)]);
    OrderedFinal(order, entries, key, entry);
  }

  /** The oldest terminal entry is dropped. */
  lemma EvictSound(log: seq<Event>, order: seq<Key>, entries: map<Key, Entry>, calls: map<CallId, Call>,
                   terminal: seq<Key>)
    requires Evicting(log, order, entries, calls, terminal) && terminal != []
    ensures Evicting(log + [EvictEvent(terminal[0])], Without(order, terminal[0]), entries - {terminal[0]}, calls,
                     terminal[1..])
    ensures FinalOrder(log + [EvictEvent(terminal[0])]) == FinalOrder(log)
  {
    var key := terminal[0];
    TerminalsInOrder(order, entries, key);
    assert StateOf(log, key) == Seen(entries, calls, key);
    ExplainedStep(log, entries, calls, EvictEvent(key), entries - {key}, calls);
    WithoutMembers(order, key);
    TerminalsWithoutFirst(order, entries);
    TerminalsAgree(Without(order, key), entries, entries - {key});
  }

  lemma LastOfLast(capacity: nat, finals: seq<Key>, key: Key)
    requires capacity >= 1
    ensures Last(capacity, Last(capacity, finals) + [key]) == Last(capacity, finals + [key])
    ensures key in Last(capacity, finals + [key])
  {
    var l := Last(capacity, finals + [key]);
    assert l[|l| - 1] == key;
  }

  /** Each admitted call was admitted once, and got one terminal entry if it is finished and none before. */
  ghost predicate Tallied(log: seq<Event>, calls: map<CallId, Call>) {
    forall c :: Admissions(log, c) == (if c in calls then 1 else 0)
             && Endings(log, c) == (if c in calls && calls[c].stage.Finished? then 1 else 0)
  }

  lemma TallyStep(log: seq<Event>, calls: map<CallId, Call>, e: Event, calls': map<CallId, Call>)
    requires Tallied(log, calls)
    requires e.AdmitEvent? ==> e.call !in calls && e.call in calls' && !calls'[e.call].stage.Finished?
    requires e.FinalEvent? ==>
               e.call in calls && !calls[e.call].stage.Finished? && e.call in calls' && calls'[e.call].stage.Finished?
    requires forall c :: !((e.AdmitEvent? || e.FinalEvent?) && e.call == c) ==>
               (c in calls <==> c in calls') && (c in calls ==> calls[c].stage.Finished? == calls'[c].stage.Finished?)
    ensures Tallied(log + [e], calls')
  {
    assert (log + [e])[..|log|] == log;
  }

  /** One stretch of one caller. */
  datatype Command =
    | Invoke(call: CallId, key: Key, fingerprint: Fingerprint, receiptId: nat)
    | Resolving(call: CallId, effect: Effect)
    | Entering(call: CallId)
    | Ending(call: CallId, exit: Exit, requiredSinkFailed: bool)
    | Unwinding(call: CallId, requiredSinkFailed: bool)

  class Broker {
    const capacity: nat
    var order: seq<Key>
    var entries: map<Key, Entry>
    var calls: map<CallId, Call>
    ghost var log: seq<Event>

    constructor (dedupeCapacity: nat)
      ensures Valid() && log == [] && capacity == if dedupeCapacity < 128 then 128 else dedupeCapacity
    {
      capacity := if dedupeCapacity < 128 then 128 else dedupeCapacity;
      order, entries, calls, log := [], map[], map[], [];
    }

    ghost predicate Valid()
      reads this
    {
      Sound(log, order, entries, calls, capacity) && Tallied(log, calls) && capacity >= 128
    }

    /** The ledger lookup and admission of `_invoke_owned`, under the lock. */
    method Admit(call: CallId, key: Key, fingerprint: Fingerprint, receiptId: nat) returns (reply: Reply)
      requires Valid() && call !in calls
      modifies this`order, this`entries, this`calls, this`log
      ensures Valid()
      ensures key !in old(entries) ==>
                && reply == Admission
                && entries == old(entries)[key := InFlight(fingerprint, call)]
                && calls == old(calls)[call := Call(key, fingerprint, receiptId, Admitted)]
                && log == old(log) + [AdmitEvent(key, call, fingerprint)]
      ensures key in old(entries) ==> entries == old(entries) && calls == old(calls) && order == old(order)
      ensures key in old(entries) && old(entries)[key].InFlight? ==>
                reply == Refusal(true) && log == old(log) + [RefuseEvent(key, call)]
      ensures key in old(entries) && old(entries)[key].Terminal? ==>
                if old(entries)[key].fingerprint == fingerprint
                then
                  && reply == Replay(old(entries)[key].receipt.(deduplicated := true))
                  && log == old(log) + [ReplayEvent(key, call, fingerprint, reply.receipt)]
                else reply == Refusal(false) && log == old(log) + [RefuseEvent(key, call)]
    {
      if key in entries {
        reply := Lookup(entries[key], fingerprint);
        ghost var e :=
          if reply.Replay? then ReplayEvent(key, call, fingerprint, reply.receipt) else RefuseEvent(key, call);
        LookupSound(log, order, entries, calls, capacity, e);
        TallyStep(log, calls, e, calls);
        log := log + [e];
        return;
      }
      var admitted := Call(key, fingerprint, receiptId, Admitted);
      AdmitSound(log, order, entries, calls, capacity, call, admitted);
      TallyStep(log, calls, AdmitEvent(key, call, fingerprint), calls[call := admitted]);
      entries, calls, order := entries[key := InFlight(fingerprint, call)], calls[call := admitted], order + [key];
      log := log + [AdmitEvent(key, call, fingerprint)];
      return Admission;
    }

    /** The capability was resolved; its metadata is known from here on. */
    method Resolve(call: CallId, effect: Effect)
      requires Valid() && call in calls && calls[call].stage.Admitted?
      modifies this`calls
      ensures Valid() && calls == old(calls)[call := old(calls)[call].(stage := Resolved(effect))]
    {
      ResolveSound(log, order, entries, calls, capacity, call, Resolved(effect));
      calls := calls[call := calls[call].(stage := Resolved(effect))];
    }

    /** The handler is entered: the one place where it is. */
    method Dispatch(call: CallId)
      requires Valid() && call in calls && calls[call].stage.Resolved?
      modifies this`calls, this`log
      ensures Valid()
      ensures calls == old(calls)[call := old(calls)[call].(stage := Dispatched(old(calls)[call].stage.effect))]
      ensures log == old(log) + [DispatchEvent(old(calls)[call].key, call)]
    {
      var effect := calls[call].stage.effect;
      DispatchSound(log, order, entries, calls, capacity, call, effect);
      TallyStep(log, calls, DispatchEvent(calls[call].key, call),
                calls[call := calls[call].(stage := Dispatched(effect))]);
      log := log + [DispatchEvent(calls[call].key, call)];
      calls := calls[call := calls[call].(stage := Dispatched(effect))];
    }

    method EvictOne(key: Key, ghost terminal: seq<Key>)
      requires Evicting(log, order, entries, calls, terminal) && Tallied(log, calls)
      requires terminal != [] && terminal[0] == key
      modifies this`order, this`entries, this`log
      ensures Evicting(log, order, entries, calls, terminal[1..]) && Tallied(log, calls)
      ensures log == old(log) + [EvictEvent(key)] && FinalOrder(log) == FinalOrder(old(log))
      ensures entries == old(entries) - {key}
    {
      EvictSound(log, order, entries, calls, terminal);
      TallyStep(log, calls, EvictEvent(key), calls);
      order, entries := Without(order, key), entries - {key};
      log := log + [EvictEvent(key)];
    }

    /** Drop the oldest terminal entries beyond the capacity. */
    method EvictSurplus(ghost terminal: seq<Key>)
      requires Evicting(log, order, entries, calls, terminal) && Tallied(log, calls)
      modifies this`order, this`entries, this`log
      ensures Evicting(log, order, entries, calls, Last(capacity, terminal)) && Tallied(log, calls)
      ensures FinalOrder(log) == FinalOrder(old(log))
      ensures old(log) <= log && forall i :: |old(log)| <= i < |log| ==> log[i].EvictEvent?
      ensures forall k :: k in entries ==> k in old(entries) && entries[k] == old(entries)[k]
    {
      var keys := Terminals(order, entries);
      var surplus := if |keys| > capacity then |keys| - capacity else 0;
      for n := 0 to surplus
        invariant Evicting(log, order, entries, calls, keys[n..]) && Tallied(log, calls)
        invariant FinalOrder(log) == FinalOrder(old(log))
        invariant old(log) <= log && forall i :: |old(log)| <= i < |log| ==> log[i].EvictEvent?
        invariant forall k :: k in entries ==> k in old(entries) && entries[k] == old(entries)[k]
      {
        EvictOne(keys[n], keys[n..]);
      }
    }

    /** `_finalize` under the lock: store the receipt, move it to the end, evict the oldest beyond the capacity. */
    method Finalize(call: CallId, receipt: Receipt)
      requires Valid() && call in calls && !calls[call].stage.Finished?
      requires receipt.dispatched == calls[call].stage.Dispatched? && SafeReceipt(receipt)
      modifies this`order, this`entries, this`calls, this`log
      ensures Valid()
      ensures calls == old(calls)[call := old(calls)[call].(stage := Finished)]
      ensures old(log) + [FinalEvent(old(calls)[call].key, call, receipt)] <= log
      ensures forall i :: |old(log)| < i < |log| ==> log[i].EvictEvent?
      ensures var key := old(calls)[call].key;
              key in entries && entries[key] == Terminal(old(calls)[call].fingerprint, receipt)
    {
      var key := calls[call].key;
      ghost var finals := FinalOrder(log);
      var fingerprint := calls[call].fingerprint;
      FinalSound(log, order, entries, calls, capacity, call, receipt, key, fingerprint);
      TallyStep(log, calls, FinalEvent(key, call, receipt), calls[call := calls[call].(stage := Finished)]);
      entries, order := entries[key := Terminal(fingerprint, receipt)], Without(order, key) + [key];
      calls := calls[call := calls[call].(stage := Finished)];
      log := log + [FinalEvent(key, call, receipt)];
      ghost var terminal := Last(capacity, finals) + [key];
      EvictSurplus(terminal);
      LastOfLast(capacity, finals, key);
      TerminalsInOrder(order, entries, key);
    }

    /** Every exit of `_invoke_owned` after admission ends in `_finalize`. */
    method End(call: CallId, exit: Exit, requiredSinkFailed: bool) returns (receipt: Receipt)
      requires Valid() && call in calls && CanExit(calls[call].stage, exit)
      modifies this`order, this`entries, this`calls, this`log
      ensures Valid()
      ensures receipt == FinalReceipt(old(calls)[call].receiptId, old(calls)[call].stage, exit, requiredSinkFailed)
      ensures calls == old(calls)[call := old(calls)[call].(stage := Finished)]
      ensures old(log) + [FinalEvent(old(calls)[call].key, call, receipt)] <= log
      ensures var key := old(calls)[call].key;
              key in entries && entries[key] == Terminal(old(calls)[call].fingerprint, receipt)
    {
      receipt := FinalReceipt(calls[call].receiptId, calls[call].stage, exit, requiredSinkFailed);
      Finalize(call, receipt);
    }

    /**
    The `except BaseException` of `invoke`: a receipt if the admission is still ours, nothing if an
    exit already finalised it. So an admission is never left without a receipt and never gets two.
    */
    method Unwind(call: CallId, requiredSinkFailed: bool) returns (receipt: Option<Receipt>)
      requires Valid() && call in calls
      modifies this`order, this`entries, this`calls, this`log
      ensures Valid()
      ensures receipt.None? <==> old(calls)[call].stage.Finished?
      ensures receipt.None? ==> log == old(log) && entries == old(entries) && calls == old(calls) && order == old(order)
      ensures receipt.Some? ==>
                && receipt.value ==
                   FinalReceipt(old(calls)[call].receiptId, old(calls)[call].stage, Interrupted, requiredSinkFailed)
                && calls == old(calls)[call := old(calls)[call].(stage := Finished)]
                && old(log) + [FinalEvent(old(calls)[call].key, call, receipt.value)] <= log
    {
      var key := calls[call].key;
      receipt := None;
      if key in entries && entries[key] == InFlight(calls[call].fingerprint, call) {
        var r := End(call, Interrupted, requiredSinkFailed);
        receipt := Some(r);
      }
    }

    /** Any interleaving of callers; a command that is not enabled is not issued. */
    method Interleave(commands: seq<Command>)
      requires Valid()
      modifies this`order, this`entries, this`calls, this`log
      ensures Valid()
    {
      for i := 0 to |commands|
        invariant Valid()
      {
        match commands[i] {
          case Invoke(call, key, fingerprint, receiptId) =>
            if call !in calls {
              var _ := Admit(call, key, fingerprint, receiptId);
            }
          case Resolving(call, effect) =>
            if call in calls && calls[call].stage.Admitted? {
              Resolve(call, effect);
            }
          case Entering(call) =>
            if call in calls && calls[call].stage.Resolved? {
              Dispatch(call);
            }
          case Ending(call, exit, requiredSinkFailed) =>
            if call in calls && CanExit(calls[call].stage, exit) {
              var _ := End(call, exit, requiredSinkFailed);
            }
          case Unwinding(call, requiredSinkFailed) =>
            if call in calls {
              var _ := Unwind(call, requiredSinkFailed);
            }
        }
      }
    }
  }
}
