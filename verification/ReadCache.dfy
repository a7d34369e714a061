/**
The versioned read cache and the read queue of `electron-workbench-watchers.js`. Promises settle in
steps of their own: each method is one piece of code that the event loop runs without interruption.
*/
module ReadCache {
  import opened Common

  type Key(==, !new, 0)

  type Value(!new, 0)

  datatype Phase =
    /** The read is due in the next microtask. */
    | Due
    /** It was entered when the cache's version was `at`. */
    | Running(at: nat)
    | Resolved(at: nat, value: Value)
    | Rejected

  /** A cache entry and the one read it was made for. */
  datatype Entry = Entry(key: Key, version: nat, pending: bool, until: nat, phase: Phase)

  datatype State =
    /** The caller holds the promise of this entry's read. */
    | Following(entry: nat)
    /** The caller asks again when this entry's read, begun too early, has settled. */
    | AskAgain(entry: nat)
    /** The caller received the value this entry's read produced. */
    | Received(entry: nat)
    | Failed(entry: nat)

  /** A call of `get`, begun when the cache's version was `begun`; `first` is what it was answered then. */
  datatype Call = Call(key: Key, begun: nat, first: State, state: State)

  predicate InRange(entries: seq<Entry>, kept: seq<nat>) {
    forall k :: 0 <= k < |kept| ==> kept[k] < |entries|
  }

  /** The last kept entry for `key`, among the first `n`. */
  function Find(entries: seq<Entry>, kept: seq<nat>, key: Key, n: nat): (r: Option<nat>)
    requires n <= |kept| && InRange(entries, kept)
    ensures r.Some? ==> r.value in kept && r.value < |entries| && entries[r.value].key == key
    ensures r.None? ==> forall i :: 0 <= i < n ==> entries[kept[i]].key != key
  {
    if n == 0 then None
    else if entries[kept[n - 1]].key == key then Some(kept[n - 1])
    else Find(entries, kept, key, n - 1)
  }

  // ---- invariants ----------------------------------------------------------------------------------------

  predicate Distinct(kept: seq<nat>) {
    forall i, j :: 0 <= i < j < |kept| ==> kept[i] != kept[j]
  }

  /** One cached entry for a key; every read that has not settled is cached. */
  predicate Kept(entries: seq<Entry>, kept: seq<nat>) {
    && InRange(entries, kept)
    && (forall i, j :: i in kept && j in kept && entries[i].key == entries[j].key ==> i == j)
    && (forall i :: 0 <= i < |entries| && entries[i].pending ==> i in kept)
  }

  /** An entry may be reused only while nothing was invalidated after it was made. */
  predicate Fresh(entries: seq<Entry>, kept: seq<nat>, version: nat) {
    && (forall i :: 0 <= i < |entries| ==> entries[i].version <= version)
    && (forall i :: i in kept && i < |entries| && entries[i].until > 0 ==>
          entries[i].version == version && entries[i].phase.Resolved?)
  }

  predicate Timely(e: Entry) {
    && (e.phase.Running? || e.phase.Resolved? ==> e.version <= e.phase.at)
    && (!e.pending ==> e.phase.Resolved? || e.phase.Rejected?)
  }

  /** What a caller holds or received comes from a read for its key, and not from one too old. */
  predicate Served(entries: seq<Entry>, c: Call) {
    var i := c.state.entry;
    && i < |entries| && entries[i].key == c.key
    && (c.state.Following? || c.state.Received? ==> entries[i].version >= c.begun)
    && (c.state.Received? ==> entries[i].phase.Resolved?)
    && (c.state.Failed? ==> entries[i].phase.Rejected?)
  }

  /** The read is pending and was made before an invalidation that preceded the call. */
  predicate Outdated(entries: seq<Entry>, c: Call, j: nat)
    requires j < |entries|
  {
    entries[j].pending && entries[j].key == c.key && entries[j].version < c.begun
  }

  /** A call has to do with a read older than itself only through its first answer. */
  predicate Traced(entries: seq<Entry>, c: Call) {
    && c.state.entry < |entries| && c.first.entry < |entries|
    && (c.state.AskAgain? || c.state.Failed? ==>
          entries[c.state.entry].version < c.begun ==> c.first == AskAgain(c.state.entry))
    && (c.first.AskAgain? ==>
          var f := c.first.entry;
          && entries[f].key == c.key && entries[f].version < c.begun
          && (!entries[f].phase.Resolved? ==> c.state == AskAgain(f) || c.state == Failed(f)))
    && (forall j :: 0 <= j < |entries| && Outdated(entries, c, j) ==> c.first == AskAgain(j))
  }

  predicate Answerable(entries: seq<Entry>, version: nat, c: Call) {
    c.begun <= version && Served(entries, c) && Traced(entries, c)
  }

  predicate Sound(entries: seq<Entry>, kept: seq<nat>, version: nat, calls: seq<Call>) {
    && Distinct(kept) && Kept(entries, kept) && Fresh(entries, kept, version)
    && (forall i :: 0 <= i < |entries| ==> Timely(entries[i]))
    && (forall c :: 0 <= c < |calls| ==> Answerable(entries, version, calls[c]))
  }

  /** At most one read per key is in flight. */
  lemma SingleFlight(entries: seq<Entry>, kept: seq<nat>, version: nat, calls: seq<Call>, i: nat, j: nat)
    requires Sound(entries, kept, version, calls) && i < |entries| && j < |entries|
    requires !entries[i].phase.Resolved? && !entries[i].phase.Rejected?
    requires !entries[j].phase.Resolved? && !entries[j].phase.Rejected?
    requires entries[i].key == entries[j].key
    ensures i == j
  {
    assert Timely(entries[i]) && Timely(entries[j]);
  }

  /** A value comes from a read entered no earlier than the last invalidation before its `get` began. */
  lemma NoStaleValue(entries: seq<Entry>, kept: seq<nat>, version: nat, calls: seq<Call>, c: nat)
    requires Sound(entries, kept, version, calls) && c < |calls| && calls[c].state.Received?
    ensures
      var e := entries[calls[c].state.entry];
      e.key == calls[c].key && e.phase.Resolved? && e.phase.at >= calls[c].begun
  {
    assert Answerable(entries, version, calls[c]);
    assert Timely(entries[calls[c].state.entry]);
  }

  /**
  A call that is over has received the failure of a read older than itself if and only if its first answer
  was to wait for such a read - one made before the last invalidation was in flight when the call began -
  and that read failed.
  */
  lemma OldFailureExactly(entries: seq<Entry>, kept: seq<nat>, version: nat, calls: seq<Call>, c: nat)
    requires Sound(entries, kept, version, calls) && c < |calls| && (calls[c].state.Received? || calls[c].state.Failed?)
    ensures
      var call := calls[c];
      && call.state.entry < |entries| && call.first.entry < |entries|
      && ((call.state.Failed? && entries[call.state.entry].version < call.begun)
          <==> (call.first.AskAgain? && entries[call.first.entry].phase.Rejected?))
      && (call.first.AskAgain? ==>
            entries[call.first.entry].key == call.key && entries[call.first.entry].version < call.begun)
  {
    assert Answerable(entries, version, calls[c]);
  }

  // ---- eviction --------------------------------------------------------------------------------------------

  /** Those of the first `n` kept entries that eviction must leave. */
  function Survivors(entries: seq<Entry>, kept: seq<nat>, spared: nat, n: nat): seq<nat>
    requires n <= |kept| && InRange(entries, kept)
  {
    if n == 0 then []
    else
      var before := Survivors(entries, kept, spared, n - 1);
      if entries[kept[n - 1]].pending || kept[n - 1] == spared then before + [kept[n - 1]] else before
  }

  lemma {:induction false} SurvivorsAre(entries: seq<Entry>, kept: seq<nat>, spared: nat, n: nat)
    requires n <= |kept| && InRange(entries, kept)
    ensures forall i :: i in Survivors(entries, kept, spared, n) <==>
                          i in kept[..n] && i < |entries| && (entries[i].pending || i == spared)
  {
    if n > 0 {
      assert kept[..n] == kept[..n - 1] + [kept[n - 1]];
      SurvivorsAre(entries, kept, spared, n - 1);
    }
  }

  lemma {:induction false} SurvivorsDistinct(entries: seq<Entry>, kept: seq<nat>, spared: nat, n: nat)
    requires n <= |kept| && InRange(entries, kept) && Distinct(kept)
    ensures Distinct(Survivors(entries, kept, spared, n))
    ensures Distinct(Survivors(entries, kept, spared, n) + kept[n..])
  {
    if n > 0 {
      SurvivorsAre(entries, kept, spared, n - 1);
      SurvivorsDistinct(entries, kept, spared, n - 1);
    }
    SurvivorsAre(entries, kept, spared, n);
    var survivors := Survivors(entries, kept, spared, n);
    var all := survivors + kept[n..];
    forall a, b | 0 <= a < b < |all| ensures all[a] != all[b] {
      if a < |survivors| <= b {
        assert survivors[a] in kept[..n];
        assert all[b] == kept[n + b - |survivors|];
      }
    }
  }

  /** `after` is `before` without some settled entries other than `spared`. */
  predicate Thinned(entries: seq<Entry>, before: seq<nat>, after: seq<nat>, spared: nat) {
    && (forall i :: i in after ==> i in before)
    && (forall i :: i in before && i !in after ==> i < |entries| && !entries[i].pending && i != spared)
  }

  lemma EvictionThins(entries: seq<Entry>, kept: seq<nat>, spared: nat, n: nat)
    requires n <= |kept| && InRange(entries, kept) && Distinct(kept)
    ensures Distinct(Survivors(entries, kept, spared, n) + kept[n..])
    ensures Thinned(entries, kept, Survivors(entries, kept, spared, n) + kept[n..], spared)
    ensures forall i :: n == |kept| && i in Survivors(entries, kept, spared, n) + kept[n..] ==>
                          i < |entries| && (entries[i].pending || i == spared)
  {
    SurvivorsAre(entries, kept, spared, n);
    SurvivorsDistinct(entries, kept, spared, n);
    assert kept == kept[..n] + kept[n..];
  }

  /** Of the `n` oldest entries the evictable ones are gone, and `n` is no more than it took to fit. */
  predicate EvictedAt(entries: seq<Entry>, kept: seq<nat>, spared: nat, limit: nat, n: nat, after: seq<nat>) {
    && n <= |kept| && InRange(entries, kept)
    && after == Survivors(entries, kept, spared, n) + kept[n..]
    && (|after| <= limit || n == |kept|)
    && (n > 0 ==> |Survivors(entries, kept, spared, n - 1)| + |kept| - n + 1 > limit)
  }

  /** The eviction loop of `get`, from the oldest entry. */
  method Evict(entries: seq<Entry>, kept: seq<nat>, spared: nat, limit: nat) returns (after: seq<nat>, n: nat)
    requires InRange(entries, kept)
    ensures EvictedAt(entries, kept, spared, limit, n, after)
  {
    var survivors: seq<nat> := [];
    n := 0;
    while n < |kept| && |survivors| + |kept| - n > limit
      invariant 0 <= n <= |kept| && survivors == Survivors(entries, kept, spared, n)
      invariant n > 0 ==> |Survivors(entries, kept, spared, n - 1)| + |kept| - n + 1 > limit
    {
      if entries[kept[n]].pending || kept[n] == spared {
        survivors := survivors + [kept[n]];
      }
      n := n + 1;
    }
    after := survivors + kept[n..];
  }

  /** `entries.delete(key)` of the settled entry `found`, if there was one. */
  function Without(kept: seq<nat>, found: Option<nat>, n: nat): (r: seq<nat>)
    requires n <= |kept|
    ensures forall i :: i in r <==> i in kept[..n] && found != Some(i)
    ensures Distinct(kept) ==> Distinct(r)
  {
    if n == 0 then []
    else
      assert kept[..n] == kept[..n - 1] + [kept[n - 1]];
      var before := Without(kept, found, n - 1);
      if found == Some(kept[n - 1]) then before else before + [kept[n - 1]]
  }

  lemma Replaced(entries: seq<Entry>, kept: seq<nat>, found: Option<nat>, e: Entry)
    requires Distinct(kept) && InRange(entries, kept)
    ensures Distinct(Without(kept, found, |kept|) + [|entries|])
    ensures InRange(entries + [e], Without(kept, found, |kept|) + [|entries|])
    ensures forall i :: i in Without(kept, found, |kept|) <==> i in kept && found != Some(i)
  {
    var others := Without(kept, found, |kept|);
    assert kept[..|kept|] == kept;
    forall k | 0 <= k < |others| ensures others[k] < |entries| {
      assert others[k] in kept;
    }
  }

  // ---- the cache -------------------------------------------------------------------------------------------

  /** A new entry for a key without an unsettled one. */
  lemma Began(entries: seq<Entry>, kept: seq<nat>, version: nat, calls: seq<Call>, key: Key, after: seq<nat>)
    requires Sound(entries, kept, version, calls) && Distinct(after)
    requires forall i :: i in kept && i < |entries| && entries[i].key == key ==> !entries[i].pending && i !in after
    requires forall i :: i in after <==> i == |entries| || (i in after && i in kept)
    requires forall i :: i in kept && i < |entries| && i !in after ==> !entries[i].pending
    ensures Sound(entries + [Entry(key, version, true, 0, Due)], after, version, calls)
  {
    var more := entries + [Entry(key, version, true, 0, Due)];
    forall k | 0 <= k < |after| ensures after[k] < |more| {
      assert after[k] in after;
    }
    forall c | 0 <= c < |calls| ensures Answerable(more, version, calls[c]) {
      assert Answerable(entries, version, calls[c]);
      assert forall j :: 0 <= j < |entries| ==> Outdated(more, calls[c], j) == Outdated(entries, calls[c], j);
    }
    forall i | 0 <= i < |more| ensures Timely(more[i]) {
      assert i < |entries| ==> Timely(entries[i]);
    }
  }

  function Begun(entries: seq<Entry>, key: Key, version: nat): seq<Entry> {
    entries + [Entry(key, version, true, 0, Due)]
  }

  /** The map with the settled entry for `key`, if any, replaced by a new one. */
  function Placed(entries: seq<Entry>, kept: seq<nat>, key: Key): seq<nat>
    requires InRange(entries, kept)
  {
    Without(kept, Find(entries, kept, key, |kept|), |kept|) + [|entries|]
  }

  predicate Idle(entries: seq<Entry>, kept: seq<nat>, key: Key)
    requires InRange(entries, kept)
  {
    var found := Find(entries, kept, key, |kept|);
    found.Some? ==> !entries[found.value].pending
  }

  lemma BeganEvicted(entries: seq<Entry>, kept: seq<nat>, version: nat, calls: seq<Call>, key: Key,
                     limit: nat, n: nat, after: seq<nat>)
    requires Sound(entries, kept, version, calls) && Idle(entries, kept, key)
    requires EvictedAt(Begun(entries, key, version), Placed(entries, kept, key), |entries|, limit, n, after)
    ensures Sound(Begun(entries, key, version), after, version, calls)
    ensures forall i :: i in after ==> i in kept || i == |entries|
    ensures |after| <= limit || forall i :: i in after ==> i <= |entries| && Begun(entries, key, version)[i].pending
  {
    var more := Begun(entries, key, version);
    Replaced(entries, kept, Find(entries, kept, key, |kept|), more[|entries|]);
    EvictionThins(more, Placed(entries, kept, key), |entries|, n);
    Began(entries, kept, version, calls, key, after);
  }

  /** How `get` answers: with the read in flight, after it, with the cached value, or with a new read. */
  predicate Answered(entries: seq<Entry>, kept: seq<nat>, version: nat, limit: nat, key: Key, now: nat,
                     more: seq<Entry>, after: seq<nat>, state: State)
    requires InRange(entries, kept)
  {
    var found := Find(entries, kept, key, |kept|);
    if found.Some? && entries[found.value].pending then
      && more == entries && after == kept
      && state == if entries[found.value].version == version then Following(found.value) else AskAgain(found.value)
    else if found.Some? && entries[found.value].until > now then
      more == entries && after == kept && state == Received(found.value)
    else
      && more == Begun(entries, key, version) && state == Following(|entries|)
      && (|after| <= limit || forall i :: i in after ==> i < |more| && more[i].pending)
      && (forall i :: i in after ==> i in kept || i == |entries|)
  }

  /** What a new call is answered makes it traceable. */
  lemma FirstAnswer(entries: seq<Entry>, kept: seq<nat>, version: nat, calls: seq<Call>, limit: nat, key: Key, now: nat,
                    more: seq<Entry>, after: seq<nat>, state: State)
    requires Sound(entries, kept, version, calls)
    requires Answered(entries, kept, version, limit, key, now, more, after, state)
    requires Served(more, Call(key, version, state, state))
    ensures Answerable(more, version, Call(key, version, state, state))
  {
    var found, call := Find(entries, kept, key, |kept|), Call(key, version, state, state);
    forall j | 0 <= j < |more| && Outdated(more, call, j) ensures state == AskAgain(j) {
      assert j < |entries| && j in kept && found == Some(j);
    }
  }

  /** A waiting call goes on: it fails, it receives the value, or it is answered again. */
  lemma Redirected(entries: seq<Entry>, kept: seq<nat>, version: nat, calls: seq<Call>, c: nat, state: State)
    requires Sound(entries, kept, version, calls) && c < |calls|
    requires calls[c].state.Following? || calls[c].state.AskAgain?
    requires var i := calls[c].state.entry;
             && i < |entries| && !entries[i].pending
             && (entries[i].phase.Rejected? ==> state == Failed(i))
             && (entries[i].phase.Resolved? && calls[c].state.Following? ==> state == Received(i))
             && (entries[i].phase.Resolved? && calls[c].state.AskAgain? ==>
                   && Served(entries, Call(calls[c].key, version, state, state)) && !state.Failed?
                   && (state.AskAgain? ==> entries[state.entry].pending))
    ensures Sound(entries, kept, version, calls[c := calls[c].(state := state)])
  {
    var more, call := calls[c := calls[c].(state := state)], calls[c];
    assert Answerable(entries, version, call) && Timely(entries[call.state.entry]);
    assert state.AskAgain? && entries[state.entry].version < call.begun ==> Outdated(entries, call, state.entry);
    forall j | 0 <= j < |entries| && Outdated(entries, more[c], j) ensures call.first == AskAgain(j) {
      assert Outdated(entries, call, j);
    }
    forall d | 0 <= d < |more| ensures Answerable(entries, version, more[d]) {
      assert Answerable(entries, version, calls[d]);
    }
  }

  /** One entry moves on; what was received from it stays received. */
  lemma Moved(entries: seq<Entry>, kept: seq<nat>, version: nat, calls: seq<Call>, i: nat, e: Entry)
    requires Sound(entries, kept, version, calls) && i < |entries| && Timely(e)
    requires e.key == entries[i].key && e.version == entries[i].version
    requires e.pending ==> entries[i].pending
    requires entries[i].phase.Resolved? ==> e.phase.Resolved?
    requires entries[i].phase.Rejected? ==> e.phase.Rejected?
    requires e.until > 0 ==> e.version == version && e.phase.Resolved?
    ensures Sound(entries[i := e], kept, version, calls)
  {
    var more := entries[i := e];
    forall c | 0 <= c < |calls| ensures Answerable(more, version, calls[c]) {
      assert Answerable(entries, version, calls[c]);
      assert forall j :: 0 <= j < |entries| ==> Outdated(more, calls[c], j) ==> Outdated(entries, calls[c], j);
    }
    forall j | 0 <= j < |more| ensures Timely(more[j]) {
      assert Timely(entries[j]);
    }
  }

  class Cache {
    const ttl: nat
    const limit: nat
    /** Every entry object ever made. */
    var entries: seq<Entry>
    /** The map's entries, in insertion order. */
    var kept: seq<nat>
    var version: nat
    var calls: seq<Call>

    ghost predicate Valid()
      reads this
    {
      Sound(entries, kept, version, calls)
    }

    constructor (ttl: nat, limit: nat)
      ensures Valid() && entries == [] && kept == [] && calls == [] && version == 0
      ensures this.ttl == ttl && this.limit == limit
    {
      this.ttl, this.limit := ttl, limit;
      entries, kept, version, calls := [], [], 0, [];
    }

    /** The body of `get`: which promise it answers with. */
    method Answer(key: Key, now: nat) returns (state: State)
      requires Valid()
      modifies this`entries, this`kept
      ensures Valid() && Served(entries, Call(key, version, state, state)) && old(entries) <= entries
      ensures Answered(old(entries), old(kept), version, limit, key, now, entries, kept, state)
    {
      var found := Find(entries, kept, key, |kept|);
      if found.Some? && entries[found.value].pending {
        return if entries[found.value].version == version then Following(found.value) else AskAgain(found.value);
      }
      if found.Some? && entries[found.value].until > now {
        return Received(found.value);
      }
      BeginRead(key);
      return Following(|entries| - 1);
    }

    /** A new entry is placed; old entries make room. */
    method BeginRead(key: Key)
      requires Valid() && Idle(entries, kept, key)
      modifies this`entries, this`kept
      ensures Valid() && entries == Begun(old(entries), key, version)
      ensures |kept| <= limit || forall i :: i in kept ==> entries[i].pending
      ensures forall i :: i in kept ==> i in old(kept) || i == |old(entries)|
    {
      var id, more, placed := |entries|, Begun(entries, key, version), Placed(entries, kept, key);
      Replaced(entries, kept, Find(entries, kept, key, |kept|), more[id]);
      var after, n := Evict(more, placed, id, limit);
      BeganEvicted(entries, kept, version, calls, key, limit, n, after);
      entries, kept := more, after;
    }

    /** `get(key)`. */
    method Get(key: Key, now: nat)
      requires Valid()
      modifies this`entries, this`kept, this`calls
      ensures Valid() && old(entries) <= entries
      ensures |calls| == |old(calls)| + 1 && calls[..|old(calls)|] == old(calls)
      ensures calls[|old(calls)|] == Call(key, version, calls[|old(calls)|].state, calls[|old(calls)|].state)
      ensures Answered(old(entries), old(kept), version, limit, key, now, entries, kept, calls[|old(calls)|].state)
    {
      ghost var entries0, kept0 := entries, kept;
      var state := Answer(key, now);
      FirstAnswer(entries0, kept0, version, calls, limit, key, now, entries, kept, state);
      calls := calls + [Call(key, version, state, state)];
    }

    /** The read of an entry is entered. */
    method EnterRead(i: nat)
      requires Valid() && i < |entries| && entries[i].phase.Due?
      modifies this`entries
      ensures Valid() && entries == old(entries)[i := old(entries)[i].(phase := Running(version))]
    {
      assert Timely(entries[i]);
      Moved(entries, kept, version, calls, i, entries[i].(phase := Running(version)));
      entries := entries[i := entries[i].(phase := Running(version))];
    }

    /** The read has produced a value: it may be reused for a while, unless it was invalidated meanwhile. */
    method Resolve(i: nat, value: Value, now: nat)
      requires Valid() && i < |entries| && entries[i].phase.Running?
      modifies this`entries
      ensures Valid()
      ensures var e := old(entries)[i];
              entries == old(entries)[i := e.(phase := Resolved(e.phase.at, value),
                                              until := if e.version == version then now + ttl else 0)]
    {
      var e := entries[i];
      assert Timely(e);
      e := e.(phase := Resolved(e.phase.at, value), until := if e.version == version then now + ttl else 0);
      Moved(entries, kept, version, calls, i, e);
      entries := entries[i := e];
    }

    method Reject(i: nat)
      requires Valid() && i < |entries| && entries[i].phase.Running?
      modifies this`entries
      ensures Valid() && entries == old(entries)[i := old(entries)[i].(phase := Rejected)]
    {
      assert Timely(entries[i]);
      assert entries[i].pending;
      assert i in kept;
      Moved(entries, kept, version, calls, i, entries[i].(phase := Rejected));
      entries := entries[i := entries[i].(phase := Rejected)];
    }

    /** The `finally` of the read. */
    method Settle(i: nat)
      requires Valid() && i < |entries| && entries[i].pending
      requires entries[i].phase.Resolved? || entries[i].phase.Rejected?
      modifies this`entries
      ensures Valid() && entries == old(entries)[i := old(entries)[i].(pending := false)]
    {
      assert i in kept;
      Moved(entries, kept, version, calls, i, entries[i].(pending := false));
      entries := entries[i := entries[i].(pending := false)];
    }

    /** The promise a caller holds has settled. */
    method Deliver(c: nat, now: nat)
      requires Valid() && c < |calls| && (calls[c].state.Following? || calls[c].state.AskAgain?)
      requires calls[c].state.entry < |entries| && !entries[calls[c].state.entry].pending
      modifies this`entries, this`kept, this`calls
      ensures Valid() && old(entries) <= entries && |calls| == |old(calls)|
      ensures forall d :: 0 <= d < |calls| && d != c ==> calls[d] == old(calls)[d]
      ensures calls[c] == old(calls)[c].(state := calls[c].state)
      ensures var i := old(calls)[c].state.entry;
              && (old(entries)[i].phase.Rejected? ==> calls[c].state == Failed(i) && entries == old(entries))
              && (old(calls)[c].state.Following? && old(entries)[i].phase.Resolved? ==>
                    calls[c].state == Received(i) && entries == old(entries))
              && (old(calls)[c].state.AskAgain? && old(entries)[i].phase.Resolved? ==>
                    Answered(old(entries), old(kept), version, limit, calls[c].key, now, entries, kept, calls[c].state))
    {
      var call := calls[c];
      var i := call.state.entry;
      assert Answerable(entries, version, call) && Timely(entries[i]);
      var state;
      if entries[i].phase.Rejected? {
        state := Failed(i);
      } else if call.state.Following? {
        state := Received(i);
      } else {
        state := Answer(call.key, now);
      }
      Redirected(entries, kept, version, calls, c, state);
      calls := calls[c := call.(state := state)];
    }

    /** `invalidate`. */
    method Invalidate()
      requires Valid()
      modifies this`version, this`entries
      ensures Valid() && version == old(version) + 1 && |entries| == |old(entries)|
      ensures forall i :: 0 <= i < |entries| ==>
                entries[i] == if i in kept then old(entries)[i].(until := 0) else old(entries)[i]
    {
      version := version + 1;
      var n := 0;
      while n < |kept|
        invariant 0 <= n <= |kept| && |entries| == |old(entries)| && version == old(version) + 1
        invariant forall i :: 0 <= i < |entries| ==>
                    entries[i] == if i in kept[..n] then old(entries)[i].(until := 0) else old(entries)[i]
      {
        entries := entries[kept[n] := entries[kept[n]].(until := 0)];
        assert kept[..n + 1] == kept[..n] + [kept[n]];
        n := n + 1;
      }
      assert kept[..n] == kept;
      forall i | 0 <= i < |entries| ensures Timely(entries[i]) {
        assert Timely(old(entries)[i]);
      }
      forall c | 0 <= c < |calls| ensures Answerable(entries, version, calls[c]) {
        assert Answerable(old(entries), old(version), calls[c]);
        assert forall j :: 0 <= j < |entries| ==> Outdated(entries, calls[c], j) == Outdated(old(entries), calls[c], j);
      }
    }
  }

  /** A history in which a `get` begun after an invalidation receives the error of an older read. */
  method OldFailureIsDelivered(key: Key, ttl: nat, limit: nat) returns (cache: Cache)
    ensures cache.Valid() && |cache.calls| == 2 && |cache.entries| == 1
    ensures cache.calls[1] == Call(key, 1, AskAgain(0), Failed(0)) && cache.entries[0].version == 0
  {
    cache := new Cache(ttl, limit);
    cache.Get(key, 0);
    assert Answerable(cache.entries, 0, cache.calls[0]);
    cache.EnterRead(0);
    assert cache.entries[0].pending;
    cache.Invalidate();
    assert 0 in cache.kept;
    cache.Get(key, 0);
    assert cache.calls[1].state == AskAgain(0);
    cache.Reject(0);
    cache.Settle(0);
    cache.Deliver(1, 0);
  }

  // ---- limitReadConcurrency -----------------------------------------------------------------------------------

  /** At most `limit` reads run; the others wait in the order they were asked for. */
  class ReadQueue {
    const limit: nat
    var active: nat
    var queue: seq<nat>
    /** Requests so far; each is known by its number. */
    var asked: nat
    /** Reads entered, in order. */
    ghost var entered: seq<nat>
    ghost var settled: set<nat>

    /** Nothing waits while a slot is free. */
    ghost predicate Valid()
      reads this
    {
      && entered + queue == seq(asked, i => i)
      && settled <= (set i | i in entered)
      && active == |entered| - |settled| <= limit
      && (queue != [] ==> active == limit)
    }

    constructor (limit: nat)
      ensures Valid() && asked == 0
    {
      this.limit := limit;
      active, queue, asked, entered, settled := 0, [], 0, [], {};
    }

    method Drain()
      requires entered + queue == seq(asked, i => i) && settled <= (set i | i in entered)
      requires active == |entered| - |settled| <= limit
      modifies this`active, this`queue, this`entered
      ensures Valid() && old(entered) <= entered
    {
      while active < limit && queue != []
        invariant entered + queue == seq(asked, i => i) && settled <= (set i | i in entered)
        invariant active == |entered| - |settled| <= limit && old(entered) <= entered
        decreases |queue|
      {
        var next := queue[0];
        assert entered + queue == entered + [next] + queue[1..];
        queue, active, entered := queue[1..], active + 1, entered + [next];
      }
    }

    method Ask() returns (request: nat)
      requires Valid()
      modifies this`active, this`queue, this`asked, this`entered
      ensures Valid() && request == old(asked) && asked == old(asked) + 1 && old(entered) <= entered
    {
      request := asked;
      assert entered + (queue + [request]) == (entered + queue) + [request];
      queue, asked := queue + [request], asked + 1;
      Drain();
    }

    /** A running read has settled. */
    method Finish(request: nat)
      requires Valid() && request in entered && request !in settled
      modifies this`active, this`queue, this`entered, this`settled
      ensures Valid() && settled == old(settled) + {request} && old(entered) <= entered
    {
      StillRunning(entered, queue, asked, settled, request);
      active, settled := active - 1, settled + {request};
      Drain();
    }
  }

  function Below(n: nat): (r: set<nat>)
    ensures |r| == n && forall i: nat :: i in r <==> i < n
  {
    if n == 0 then {} else Below(n - 1) + {n - 1}
  }

  /** A running read makes the settled ones fewer than the entered ones. */
  lemma StillRunning(entered: seq<nat>, queue: seq<nat>, asked: nat, settled: set<nat>, request: nat)
    requires entered + queue == seq(asked, i => i) && settled <= (set i | i in entered)
    requires request in entered && request !in settled
    ensures |settled| < |entered|
  {
    assert forall k :: 0 <= k < |entered| ==> entered[k] == (entered + queue)[k] == k;
    Subset(settled + {request}, Below(|entered|));
  }

  lemma {:induction false} Subset(a: set<nat>, b: set<nat>)
    requires a <= b
    ensures |a| <= |b|
    decreases b
  {
    if x :| x in a {
      Subset(a - {x}, b - {x});
    }
  }
}
