/**
The watcher registry of `electron-workbench-watchers.js`: subscriptions share one native watcher per
owner and key, under four limits. Objects the maps refer to are numbered.
*/
module Watchers {
  type Sender(==, !new, 0)

  type Key(==, !new, 0)

  /** An owner record: its native watchers by key, and how many subscriptions use them. */
  datatype Owner = Owner(sender: Sender, entries: map<Key, nat>, subscriptionCount: int)
  {
    /** One subscription fewer, the last one of the entry `key` or not. */
    function Without(key: Key, last: bool): Owner {
      Owner(sender, if last then entries - {key} else entries, subscriptionCount - 1)
    }
  }

  /** An entry record with its native watcher. */
  datatype Watch = Watch(owner: nat, key: Key, ids: set<nat>, open: bool)
  {
    function Without(id: nat): Watch {
      Watch(owner, key, ids - {id}, ids != {id})
    }
  }

  datatype Subscription = Subscription(sender: Sender, owner: nat, watch: nat)

  datatype StartResult = Subscribed(id: nat) | LimitReached | WatchFailed

  // ---- counting ------------------------------------------------------------------------------------

  /** Entries of the first `n` owner records. */
  function EntryTotal(owners: seq<Owner>, n: nat): nat
    requires n <= |owners|
  {
    if n == 0 then 0 else EntryTotal(owners, n - 1) + |owners[n - 1].entries|
  }

  /** Open native watchers among the first `n`. */
  function OpenTotal(watches: seq<Watch>, n: nat): nat
    requires n <= |watches|
  {
    if n == 0 then 0 else OpenTotal(watches, n - 1) + if watches[n - 1].open then 1 else 0
  }

  lemma {:induction false} EntryTotalUpdates(owners: seq<Owner>, n: nat, o: nat, owner: Owner)
    requires o < |owners| && n <= |owners|
    ensures EntryTotal(owners[o := owner], n) ==
            EntryTotal(owners, n) + if o < n then |owner.entries| - |owners[o].entries| else 0
  {
    if n > 0 {
      EntryTotalUpdates(owners, n - 1, o, owner);
    }
  }

  lemma {:induction false} EntryTotalAppends(owners: seq<Owner>, n: nat, owner: Owner)
    requires n <= |owners|
    ensures EntryTotal(owners + [owner], n) == EntryTotal(owners, n)
  {
    if n > 0 {
      EntryTotalAppends(owners, n - 1, owner);
    }
  }

  lemma {:induction false} OpenTotalUpdates(watches: seq<Watch>, n: nat, w: nat, watch: Watch)
    requires w < |watches| && n <= |watches|
    ensures OpenTotal(watches[w := watch], n) ==
            OpenTotal(watches, n)
            + if w < n then (if watch.open then 1 else 0) - (if watches[w].open then 1 else 0) else 0
  {
    if n > 0 {
      OpenTotalUpdates(watches, n - 1, w, watch);
    }
  }

  lemma {:induction false} OpenTotalAppends(watches: seq<Watch>, n: nat, watch: Watch)
    requires n <= |watches|
    ensures OpenTotal(watches + [watch], n) == OpenTotal(watches, n)
  {
    if n > 0 {
      OpenTotalAppends(watches, n - 1, watch);
    }
  }

  /** The subscriptions of an owner record. */
  function Of(subscriptions: map<nat, Subscription>, o: nat): set<nat> {
    set id | id in subscriptions && subscriptions[id].owner == o
  }

  // ---- the registry as one value --------------------------------------------------------------------

  datatype Limits = Limits(ownerWatches: nat, ownerSubscriptions: nat, watches: nat, subscriptions: nat)

  datatype Registry = Registry(
    owners: map<Sender, nat>, records: seq<Owner>, watches: seq<Watch>, subscriptions: map<nat, Subscription>,
    sequence: nat, nativeCount: int, listening: set<Sender>)
  {
    /** References lead to records that refer back. */
    predicate Linked() {
      && (forall s :: s in owners ==> owners[s] < |records| && records[owners[s]].sender == s)
      && (forall id {:trigger Backed(id)} :: id in subscriptions ==> Backed(id))
      && (forall w {:trigger Used(w)} :: 0 <= w < |watches| ==> Used(w))
      && (forall o, k {:trigger Entered(o, k)} :: 0 <= o < |records| && k in records[o].entries ==> Entered(o, k))
    }

    predicate Backed(id: nat)
      requires id in subscriptions
    {
      var Subscription(s, o, w) := subscriptions[id];
      && id <= sequence && w < |watches| && watches[w].owner == o && id in watches[w].ids
      && s in owners && owners[s] == o
    }

    /** A native watcher is open exactly when some subscription uses it, and then it is its owner's entry. */
    predicate Used(w: nat)
      requires w < |watches|
    {
      && (watches[w].open <==> watches[w].ids != {})
      && (forall id :: id in watches[w].ids ==> id in subscriptions && subscriptions[id].watch == w)
      && (watches[w].open ==> Reached(w))
    }

    predicate Reached(w: nat)
      requires w < |watches|
    {
      var o, k := watches[w].owner, watches[w].key;
      o < |records| && k in records[o].entries && records[o].entries[k] == w
    }

    predicate Entered(o: nat, k: Key)
      requires o < |records| && k in records[o].entries
    {
      var w := records[o].entries[k];
      w < |watches| && watches[w].owner == o && watches[w].key == k && watches[w].open
    }

    /** An owner is known, and listened to, exactly while it has an entry; `but` is exempt. */
    predicate Listened(but: set<Sender>) {
      && listening == owners.Keys
      && (forall s :: s in owners && owners[s] < |records| && s !in but ==> |records[owners[s]].entries| > 0)
    }

    predicate Counted() {
      && nativeCount == EntryTotal(records, |records|) == OpenTotal(watches, |watches|)
      && forall o :: 0 <= o < |records| ==> records[o].subscriptionCount == |Of(subscriptions, o)|
    }

    predicate Within(limits: Limits) {
      && |subscriptions| <= limits.subscriptions && nativeCount <= limits.watches
      && forall o :: 0 <= o < |records| ==>
           |records[o].entries| <= limits.ownerWatches && records[o].subscriptionCount <= limits.ownerSubscriptions
    }

    predicate Sound(limits: Limits) {
      Linked() && Listened({}) && Counted() && Within(limits)
    }

    /** `id` is a subscription of `sender`. */
    predicate Holds(sender: Sender, id: nat) {
      && id in subscriptions && subscriptions[id].sender == sender
      && subscriptions[id].owner < |records| && subscriptions[id].watch < |watches|
    }

    /** `stop`: the subscription goes, with its last one the native watcher, with its last watcher the owner. */
    function Stopped(sender: Sender, id: nat): Registry {
      if !Holds(sender, id) then this
      else
        var Subscription(_, o, w) := subscriptions[id];
        var last := watches[w].ids == {id};
        var owner := records[o].Without(watches[w].key, last);
        var quits := |owner.entries| == 0;
        Registry(if quits then owners - {sender} else owners, records[o := owner], watches[w := watches[w].Without(id)],
                 subscriptions - {id}, sequence, nativeCount - (if last then 1 else 0),
                 if quits then listening - {sender} else listening)
    }

    function WithOwner(sender: Sender): Registry {
      if sender in owners then this
      else this.(owners := owners[sender := |records|], records := records + [Owner(sender, map[], 0)],
                 listening := listening + {sender})
    }

    /** One more subscription of an open native watcher. */
    function Joined(sender: Sender, o: nat, w: nat): Registry
      requires o < |records| && w < |watches|
    {
      this.(records := records[o := records[o].(subscriptionCount := records[o].subscriptionCount + 1)],
            watches := watches[w := watches[w].(ids := watches[w].ids + {sequence + 1})],
            subscriptions := subscriptions[sequence + 1 := Subscription(sender, o, w)], sequence := sequence + 1)
    }

    /** A new native watcher with its first subscription. */
    function Opened(sender: Sender, o: nat, key: Key): Registry
      requires o < |records|
    {
      var entries := records[o].entries[key := |watches|];
      this.(records := records[o := Owner(records[o].sender, entries, records[o].subscriptionCount + 1)],
            watches := watches + [Watch(o, key, {sequence + 1}, true)],
            subscriptions := subscriptions[sequence + 1 := Subscription(sender, o, |watches|)],
            sequence := sequence + 1, nativeCount := nativeCount + 1)
    }

    /** The limit check of `start`. */
    predicate Refuses(limits: Limits, sender: Sender, key: Key) {
      var known := sender in owners && owners[sender] < |records|;
      var owner := if known then records[owners[sender]] else Owner(sender, map[], 0);
      || |subscriptions| >= limits.subscriptions
      || owner.subscriptionCount >= limits.ownerSubscriptions
      || (key !in owner.entries && (|owner.entries| >= limits.ownerWatches || nativeCount >= limits.watches))
    }

    /** The registry after the native watcher could not be opened: at most an unused record is left. */
    function Failed(sender: Sender): Registry {
      if sender in owners then this else this.(records := records + [Owner(sender, map[], 0)])
    }

    /** The registry after `start` succeeded. */
    function Started(sender: Sender, key: Key): Registry {
      var r := WithOwner(sender);
      var o := r.owners[sender];
      if o >= |r.records| then this
      else if key in r.records[o].entries && r.records[o].entries[key] < |watches|
      then r.Joined(sender, o, r.records[o].entries[key])
      else r.Opened(sender, o, key)
    }
  }

  // ---- what each change keeps --------------------------------------------------------------------------

  /** What a subscription refers to. */
  lemma Use(r: Registry, id: nat)
    requires r.Linked() && id in r.subscriptions
    ensures var Subscription(s, o, w) := r.subscriptions[id];
            && o < |r.records| && w < |r.watches| && r.watches[w].owner == o && id in r.watches[w].ids
            && r.watches[w].open
            && s in r.owners && r.owners[s] == o && r.records[o].sender == s
            && r.watches[w].key in r.records[o].entries && r.records[o].entries[r.watches[w].key] == w
  {
    assert r.Backed(id);
    assert r.Used(r.subscriptions[id].watch);
  }

  lemma StoppedBacks(r: Registry, sender: Sender, id: nat, i: nat)
    requires r.Linked() && r.Holds(sender, id)
    requires i in r.subscriptions && i != id
    ensures r.Stopped(sender, id).Backed(i)
  {
    Use(r, id);
    Use(r, i);
    assert r.Backed(i);
    if r.subscriptions[i].sender == sender {
      StoppedKeeps(r, sender, id, i);
    }
  }

  lemma StoppedUses(r: Registry, sender: Sender, id: nat, v: nat)
    requires r.Linked() && r.Holds(sender, id)
    requires v < |r.watches|
    ensures r.Stopped(sender, id).Used(v)
  {
    Use(r, id);
    assert r.Used(v) && r.Used(r.subscriptions[id].watch);
  }

  lemma StoppedEnters(r: Registry, sender: Sender, id: nat, p: nat, k: Key)
    requires r.Linked() && r.Holds(sender, id)
    requires p < |r.records| && k in r.Stopped(sender, id).records[p].entries
    ensures r.Stopped(sender, id).Entered(p, k)
  {
    Use(r, id);
    assert r.Entered(p, k);
  }

  lemma StoppedLinked(r: Registry, sender: Sender, id: nat)
    requires r.Linked() && r.Holds(sender, id)
    ensures r.Stopped(sender, id).Linked()
  {
    var q := r.Stopped(sender, id);
    assert r.Backed(id);
    forall i | i in q.subscriptions ensures q.Backed(i) {
      StoppedBacks(r, sender, id, i);
    }
    forall v | 0 <= v < |q.watches| ensures q.Used(v) {
      StoppedUses(r, sender, id, v);
    }
    forall p, k | 0 <= p < |q.records| && k in q.records[p].entries ensures q.Entered(p, k) {
      StoppedEnters(r, sender, id, p, k);
    }
  }

  /** Another subscription keeps its owner. */
  lemma StoppedKeeps(r: Registry, sender: Sender, id: nat, i: nat)
    requires r.Linked() && r.Holds(sender, id)
    requires i in r.subscriptions && i != id && r.subscriptions[i].sender == sender
    ensures sender in r.Stopped(sender, id).owners
  {
    Use(r, i);
    Use(r, id);
    var q := r.Stopped(sender, id);
    assert r.watches[r.subscriptions[i].watch].key in q.records[r.subscriptions[id].owner].entries;
  }

  lemma StoppedCounted(r: Registry, sender: Sender, id: nat)
    requires r.Linked() && r.Holds(sender, id)
    requires r.Counted()
    ensures r.Stopped(sender, id).Counted()
  {
    Use(r, id);
    var q := r.Stopped(sender, id);
    var Subscription(_, o, w) := r.subscriptions[id];
    EntryTotalUpdates(r.records, |r.records|, o, q.records[o]);
    OpenTotalUpdates(r.watches, |r.watches|, w, q.watches[w]);
    assert |r.records[o].entries - {r.watches[w].key}| == |r.records[o].entries| - 1 by {
      assert (r.records[o].entries - {r.watches[w].key}).Keys == r.records[o].entries.Keys - {r.watches[w].key};
    }
    forall p | 0 <= p < |q.records| ensures q.records[p].subscriptionCount == |Of(q.subscriptions, p)| {
      assert Of(q.subscriptions, p) == Of(r.subscriptions, p) - {id};
    }
  }

  lemma StoppedWithin(r: Registry, limits: Limits, sender: Sender, id: nat)
    requires r.Linked() && r.Holds(sender, id)
    requires r.Within(limits)
    ensures r.Stopped(sender, id).Within(limits)
  {
    Use(r, id);
    var q := r.Stopped(sender, id);
    assert q.subscriptions.Keys == r.subscriptions.Keys - {id};
    var Subscription(_, o, w) := r.subscriptions[id];
    assert (r.records[o].entries - {r.watches[w].key}).Keys == r.records[o].entries.Keys - {r.watches[w].key};
  }

  /** `stop` keeps every invariant, for any caller and any number. */
  lemma StoppedSound(r: Registry, limits: Limits, sender: Sender, id: nat)
    requires r.Sound(limits)
    ensures r.Stopped(sender, id).Sound(limits)
    ensures r.Stopped(sender, id).subscriptions ==
            if id in r.subscriptions && r.subscriptions[id].sender == sender then r.subscriptions - {id}
            else r.subscriptions
  {
    if id in r.subscriptions && r.subscriptions[id].sender == sender {
      Use(r, id);
      StoppedLinked(r, sender, id);
      StoppedCounted(r, sender, id);
      StoppedWithin(r, limits, sender, id);
      StoppedListened(r, sender, id);
    }
  }

  lemma StoppedListened(r: Registry, sender: Sender, id: nat)
    requires r.Linked() && r.Holds(sender, id)
    requires r.Listened({})
    ensures r.Stopped(sender, id).Listened({})
  {
    Use(r, id);
    var q := r.Stopped(sender, id);
    forall s | s in q.owners && q.owners[s] < |q.records| ensures |q.records[q.owners[s]].entries| > 0 {
      assert r.records[r.owners[s]].sender == s;
    }
  }

  // ---- start ---------------------------------------------------------------------------------------------

  lemma WithOwnerLinked(r: Registry, sender: Sender)
    requires r.Linked()
    ensures r.WithOwner(sender).Linked()
  {
    var q := r.WithOwner(sender);
    forall i | i in q.subscriptions ensures q.Backed(i) {
      assert r.Backed(i);
    }
    forall v | 0 <= v < |q.watches| ensures q.Used(v) {
      assert r.Used(v);
    }
    forall p, k | 0 <= p < |q.records| && k in q.records[p].entries ensures q.Entered(p, k) {
      assert r.Entered(p, k);
    }
  }

  lemma WithOwnerCounted(r: Registry, sender: Sender)
    requires r.Linked() && r.Counted()
    ensures r.WithOwner(sender).Counted()
  {
    if sender !in r.owners {
      EntryTotalAppends(r.records, |r.records|, Owner(sender, map[], 0));
      forall i | i in r.subscriptions ensures r.subscriptions[i].owner != |r.records| {
        Use(r, i);
      }
      assert Of(r.subscriptions, |r.records|) == {};
    }
  }

  lemma WithOwnerListened(r: Registry, sender: Sender)
    requires r.Linked() && r.Listened({})
    ensures r.WithOwner(sender).Listened({sender})
  {
    var q := r.WithOwner(sender);
    forall s | s in q.owners && s != sender
      ensures q.owners[s] == r.owners[s] && q.records[q.owners[s]] == r.records[r.owners[s]]
    {}
  }

  lemma WithOwnerSound(r: Registry, limits: Limits, sender: Sender)
    requires r.Sound(limits)
    ensures var q := r.WithOwner(sender);
            q.Linked() && q.Listened({sender}) && q.Counted() && q.Within(limits)
  {
    if sender !in r.owners {
      WithOwnerLinked(r, sender);
      WithOwnerCounted(r, sender);
      WithOwnerListened(r, sender);
    }
  }

  /** A new owner does not change the limit check. */
  lemma WithOwnerRefuses(r: Registry, limits: Limits, sender: Sender, key: Key)
    requires r.Linked()
    ensures r.WithOwner(sender).Refuses(limits, sender, key) <==> r.Refuses(limits, sender, key)
  {}

  /** One more subscription in the whole ... */
  lemma OneMore(r: Registry, s: Subscription)
    requires r.Linked()
    ensures r.sequence + 1 !in r.subscriptions
    ensures |r.subscriptions[r.sequence + 1 := s]| == |r.subscriptions| + 1
  {
    forall i | i in r.subscriptions ensures i != r.sequence + 1 {
      assert r.Backed(i);
    }
  }

  /** ... and at its owner. */
  lemma OneMoreOf(subscriptions: map<nat, Subscription>, id: nat, s: Subscription, p: nat)
    requires id !in subscriptions
    ensures |Of(subscriptions[id := s], p)| == |Of(subscriptions, p)| + if p == s.owner then 1 else 0
  {
    assert Of(subscriptions[id := s], p) == Of(subscriptions, p) + if p == s.owner then {id} else {};
  }

  lemma JoinedLinked(r: Registry, sender: Sender, o: nat, w: nat)
    requires r.Linked() && o < |r.records| && w < |r.watches| && r.watches[w].open
    requires sender in r.owners && r.owners[sender] == o == r.watches[w].owner
    ensures r.Joined(sender, o, w).Linked()
  {
    var q := r.Joined(sender, o, w);
    forall i | i in q.subscriptions ensures q.Backed(i) {
      if i == q.sequence {
        assert q.subscriptions[i] == Subscription(sender, o, w);
      } else {
        assert r.Backed(i) && q.subscriptions[i] == r.subscriptions[i];
      }
    }
    JoinedUses(r, sender, o, w);
    forall p, k | 0 <= p < |q.records| && k in q.records[p].entries ensures q.Entered(p, k) {
      assert r.Entered(p, k);
    }
  }

  lemma JoinedUses(r: Registry, sender: Sender, o: nat, w: nat)
    requires r.Linked() && o < |r.records| && w < |r.watches| && r.watches[w].open
    ensures forall v :: 0 <= v < |r.watches| ==> r.Joined(sender, o, w).Used(v)
  {
    var q := r.Joined(sender, o, w);
    forall v | 0 <= v < |q.watches| ensures q.Used(v) {
      assert r.Used(v);
      forall id | id in q.watches[v].ids
        ensures id in q.subscriptions && q.subscriptions[id].watch == v
      {
        assert id in r.subscriptions ==> r.Backed(id);
      }
    }
  }

  lemma JoinedCounted(r: Registry, sender: Sender, o: nat, w: nat)
    requires r.Linked() && o < |r.records| && w < |r.watches| && r.Counted()
    ensures r.Joined(sender, o, w).Counted()
  {
    var q := r.Joined(sender, o, w);
    EntryTotalUpdates(r.records, |r.records|, o, q.records[o]);
    OpenTotalUpdates(r.watches, |r.watches|, w, q.watches[w]);
    OneMore(r, Subscription(sender, o, w));
    forall p | 0 <= p < |q.records| ensures q.records[p].subscriptionCount == |Of(q.subscriptions, p)| {
      OneMoreOf(r.subscriptions, r.sequence + 1, Subscription(sender, o, w), p);
    }
  }

  lemma JoinedSound(r: Registry, limits: Limits, sender: Sender, key: Key)
    requires r.Linked() && r.Listened({sender}) && r.Counted() && r.Within(limits)
    requires !r.Refuses(limits, sender, key) && sender in r.owners && key in r.records[r.owners[sender]].entries
    requires r.records[r.owners[sender]].entries[key] < |r.watches|
    ensures r.Joined(sender, r.owners[sender], r.records[r.owners[sender]].entries[key]).Sound(limits)
  {
    var o := r.owners[sender];
    var w := r.records[o].entries[key];
    assert r.Entered(o, key);
    JoinedLinked(r, sender, o, w);
    JoinedCounted(r, sender, o, w);
    OneMore(r, Subscription(sender, o, w));
    assert |r.records[o].entries| > 0 by {
      assert key in r.records[o].entries.Keys;
    }
  }

  lemma OpenedUses(r: Registry, sender: Sender, o: nat, key: Key)
    requires r.Linked() && o < |r.records| && key !in r.records[o].entries
    ensures forall v :: 0 <= v <= |r.watches| ==> r.Opened(sender, o, key).Used(v)
  {
    var q := r.Opened(sender, o, key);
    forall v | 0 <= v < |q.watches| ensures q.Used(v) {
      if v < |r.watches| {
        assert r.Used(v);
        forall id | id in q.watches[v].ids
          ensures id in q.subscriptions && q.subscriptions[id].watch == v
        {
          assert id in r.subscriptions ==> r.Backed(id);
        }
      }
    }
  }

  lemma OpenedLinked(r: Registry, sender: Sender, key: Key)
    requires r.Linked() && sender in r.owners && r.owners[sender] < |r.records|
    requires key !in r.records[r.owners[sender]].entries
    ensures r.Opened(sender, r.owners[sender], key).Linked()
  {
    var o := r.owners[sender];
    var q := r.Opened(sender, o, key);
    forall i | i in q.subscriptions ensures q.Backed(i) {
      assert i != q.sequence ==> r.Backed(i);
    }
    OpenedUses(r, sender, o, key);
    forall p, k | 0 <= p < |q.records| && k in q.records[p].entries ensures q.Entered(p, k) {
      if p != o || k != key {
        assert r.Entered(p, k);
      }
    }
  }

  lemma OpenedTotals(r: Registry, sender: Sender, o: nat, key: Key)
    requires o < |r.records| && key !in r.records[o].entries
    ensures var q := r.Opened(sender, o, key);
            && EntryTotal(q.records, |q.records|) == EntryTotal(r.records, |r.records|) + 1
            && OpenTotal(q.watches, |q.watches|) == OpenTotal(r.watches, |r.watches|) + 1
  {
    var q := r.Opened(sender, o, key);
    assert |r.records[o].entries[key := |r.watches|]| == |r.records[o].entries| + 1;
    EntryTotalUpdates(r.records, |r.records|, o, q.records[o]);
    OpenTotalAppends(r.watches, |r.watches|, q.watches[|r.watches|]);
  }

  lemma OpenedCounted(r: Registry, sender: Sender, o: nat, key: Key)
    requires r.Linked() && o < |r.records| && key !in r.records[o].entries && r.Counted()
    ensures r.Opened(sender, o, key).Counted()
  {
    var q, s := r.Opened(sender, o, key), Subscription(sender, o, |r.watches|);
    OpenedTotals(r, sender, o, key);
    OneMore(r, s);
    forall p | 0 <= p < |q.records| ensures q.records[p].subscriptionCount == |Of(q.subscriptions, p)| {
      OneMoreOf(r.subscriptions, r.sequence + 1, s, p);
    }
  }

  lemma OpenedSound(r: Registry, limits: Limits, sender: Sender, key: Key)
    requires r.Linked() && r.Listened({sender}) && r.Counted() && r.Within(limits)
    requires !r.Refuses(limits, sender, key) && sender in r.owners && key !in r.records[r.owners[sender]].entries
    ensures r.Opened(sender, r.owners[sender], key).Sound(limits)
  {
    var o := r.owners[sender];
    OpenedLinked(r, sender, key);
    OpenedCounted(r, sender, o, key);
    OneMore(r, Subscription(sender, o, |r.watches|));
    assert |r.records[o].entries[key := |r.watches|]| == |r.records[o].entries| + 1;
  }

  /** A `start` the limits admit keeps every invariant. */
  lemma StartedSound(r: Registry, limits: Limits, sender: Sender, key: Key)
    requires r.Sound(limits) && !r.Refuses(limits, sender, key)
    ensures r.Started(sender, key).Sound(limits)
  {
    var q := r.WithOwner(sender);
    WithOwnerSound(r, limits, sender);
    WithOwnerRefuses(r, limits, sender, key);
    var o := q.owners[sender];
    if key in q.records[o].entries {
      assert q.Entered(o, key);
      JoinedSound(q, limits, sender, key);
    } else {
      OpenedSound(q, limits, sender, key);
    }
  }

  lemma FailedLinked(r: Registry, sender: Sender)
    requires r.Linked()
    ensures r.Failed(sender).Linked()
  {
    var q := r.Failed(sender);
    forall i | i in q.subscriptions ensures q.Backed(i) {
      assert r.Backed(i);
    }
    forall v | 0 <= v < |q.watches| ensures q.Used(v) {
      assert r.Used(v);
    }
    forall p, k | 0 <= p < |q.records| && k in q.records[p].entries ensures q.Entered(p, k) {
      assert r.Entered(p, k);
    }
  }

  lemma FailedCounted(r: Registry, sender: Sender)
    requires r.Linked() && r.Counted()
    ensures r.Failed(sender).Counted()
  {
    if sender !in r.owners {
      WithOwnerCounted(r, sender);
      assert r.Failed(sender).records == r.WithOwner(sender).records;
    }
  }

  /** A `start` whose native watcher fails keeps every invariant. */
  lemma FailedSound(r: Registry, limits: Limits, sender: Sender)
    requires r.Sound(limits)
    ensures r.Failed(sender).Sound(limits)
  {
    if sender !in r.owners {
      FailedLinked(r, sender);
      FailedCounted(r, sender);
    }
  }

  /** A known owner has a subscription. */
  lemma OwnerIsUsed(r: Registry, limits: Limits, sender: Sender) returns (id: nat)
    requires r.Sound(limits) && sender in r.owners
    ensures id in r.subscriptions && r.subscriptions[id].sender == sender
  {
    var o := r.owners[sender];
    var k :| k in r.records[o].entries.Keys by {
      assert |r.records[o].entries.Keys| > 0;
    }
    assert r.Entered(o, k);
    var w := r.records[o].entries[k];
    assert r.Used(w);
    id :| id in r.watches[w].ids;
    Use(r, id);
  }

  /** All subscriptions of a native watcher are its owner's. */
  lemma SameOwner(r: Registry, w: nat)
    requires r.Linked() && w < |r.watches| && r.watches[w].owner < |r.records|
    ensures forall id :: id in r.watches[w].ids ==>
              && id in r.subscriptions && id <= r.sequence && r.subscriptions[id].watch == w
              && r.subscriptions[id].sender == r.records[r.watches[w].owner].sender
  {
    forall id | id in r.watches[w].ids
      ensures
        && id in r.subscriptions && id <= r.sequence && r.subscriptions[id].watch == w
        && r.subscriptions[id].sender == r.records[r.watches[w].owner].sender
    {
      assert r.Used(w);
      Use(r, id);
      assert r.Backed(id);
    }
  }

  /** A native watcher is open exactly when some subscription uses it. */
  lemma OpenExactlyWhenUsed(r: Registry, limits: Limits, w: nat)
    requires r.Sound(limits) && w < |r.watches|
    ensures r.watches[w].open <==> exists id :: id in r.subscriptions && r.subscriptions[id].watch == w
  {
    assert r.Used(w);
    if r.watches[w].open {
      var id :| id in r.watches[w].ids;
      assert id in r.subscriptions && r.subscriptions[id].watch == w;
    }
    if id :| id in r.subscriptions && r.subscriptions[id].watch == w {
      Use(r, id);
    }
  }

  /** An owner made and forgotten again leaves only its record. */
  lemma Forgotten(r: Registry, sender: Sender)
    requires r.listening == r.owners.Keys
    ensures sender !in r.owners ==>
              && r.WithOwner(sender).owners - {sender} == r.owners
              && r.WithOwner(sender).listening - {sender} == r.listening
  {
    if sender !in r.owners {
      assert r.owners[sender := |r.records|] - {sender} == r.owners;
      assert r.listening + {sender} - {sender} == r.listening;
    }
  }

  // ---- the registry in place ---------------------------------------------------------------------------

  class Pool {
    const limits: Limits
    var owners: map<Sender, nat>
    var records: seq<Owner>
    var watches: seq<Watch>
    var subscriptions: map<nat, Subscription>
    var sequence: nat
    var nativeCount: int
    /** Senders whose `destroyed` event is listened to. */
    var listening: set<Sender>

    ghost function Now(): Registry
      reads this
    {
      Registry(owners, records, watches, subscriptions, sequence, nativeCount, listening)
    }

    ghost predicate Valid()
      reads this
    {
      Now().Sound(limits)
    }

    constructor (limits: Limits)
      ensures Valid() && this.limits == limits && Now() == Registry(map[], [], [], map[], 0, 0, {})
    {
      this.limits := limits;
      owners, records, watches, subscriptions, sequence, nativeCount, listening := map[], [], [], map[], 0, 0, {};
    }

    /** `stop`. */
    method Stop(sender: Sender, id: nat)
      requires Valid()
      modifies this
      ensures Valid() && Now() == old(Now()).Stopped(sender, id)
      ensures subscriptions == if id in old(subscriptions) && old(subscriptions)[id].sender == sender
                               then old(subscriptions) - {id} else old(subscriptions)
    {
      StoppedSound(Now(), limits, sender, id);
      if id in subscriptions && subscriptions[id].sender == sender {
        Use(Now(), id);
        Remove(sender, id);
      }
    }

    /** The body of `stop` for a subscription of `sender`. */
    method Remove(sender: Sender, id: nat)
      requires Now().Holds(sender, id) && id in watches[subscriptions[id].watch].ids
      requires watches[subscriptions[id].watch].open
      modifies this
      ensures Now() == old(Now()).Stopped(sender, id)
    {
      var Subscription(_, o, w) := subscriptions[id];
      subscriptions := subscriptions - {id};
      var closed := Detach(o, w, id);
      assert records[o] == old(records)[o].Without(old(watches)[w].key, closed);
      if closed {
        nativeCount := nativeCount - 1;
      }
      Leave(sender, o);
    }

    /** An owner without entries is forgotten, and its sender no longer listened to. */
    method Leave(sender: Sender, o: nat)
      requires o < |records|
      modifies this`owners, this`listening
      ensures owners == if |records[o].entries| == 0 then old(owners) - {sender} else old(owners)
      ensures listening == if |records[o].entries| == 0 then old(listening) - {sender} else old(listening)
    {
      if |records[o].entries| == 0 {
        listening, owners := listening - {sender}, owners - {sender};
      }
    }

    /** Takes `id` from its entry; the last one closes the native watcher. */
    method Detach(o: nat, w: nat, id: nat) returns (closed: bool)
      requires o < |records| && w < |watches| && id in watches[w].ids && watches[w].open
      modifies this`records, this`watches
      ensures closed <==> old(watches)[w].ids == {id}
      ensures watches == old(watches)[w := old(watches)[w].Without(id)]
      ensures records == old(records)[o := old(records)[o].Without(old(watches)[w].key, closed)]
    {
      var owner, watch := records[o], watches[w];
      closed := watch.ids - {id} == {};
      assert closed <==> watch.ids == {id};
      owner := owner.(subscriptionCount := owner.subscriptionCount - 1);
      watch := watch.(ids := watch.ids - {id});
      if closed {
        watch := watch.(open := false);
        owner := owner.(entries := owner.entries - {watch.key});
      }
      records, watches := records[o := owner], watches[w := watch];
    }

    method TooMany(sender: Sender, key: Key) returns (refused: bool)
      requires Valid()
      ensures refused <==> Now().Refuses(limits, sender, key)
    {
      if |subscriptions| >= limits.subscriptions { return true; }
      if sender !in owners {
        return 0 >= limits.ownerSubscriptions || 0 >= limits.ownerWatches || nativeCount >= limits.watches;
      }
      var owner := records[owners[sender]];
      return
        || owner.subscriptionCount >= limits.ownerSubscriptions
        || (key !in owner.entries && (|owner.entries| >= limits.ownerWatches || nativeCount >= limits.watches));
    }

    /** `start`; the native watcher opens or fails. */
    method Start(sender: Sender, key: Key, opens: bool) returns (r: StartResult)
      requires Valid()
      modifies this
      ensures Valid()
      ensures r.LimitReached? <==> old(Now()).Refuses(limits, sender, key)
      ensures r.LimitReached? ==> Now() == old(Now())
      ensures r.WatchFailed? ==> Now() == old(Now()).Failed(sender)
      ensures r.Subscribed? ==> Now() == old(Now()).Started(sender, key) && r.id == sequence
      ensures r.WatchFailed? <==>
                && !opens && !old(Now()).Refuses(limits, sender, key)
                && !(sender in old(owners) && key in old(records)[old(owners)[sender]].entries)
    {
      ghost var before := Now();
      var refused := TooMany(sender, key);
      if refused { return LimitReached; }
      StartedSound(before, limits, sender, key);
      FailedSound(before, limits, sender);
      var o := OwnerOf(sender);
      if key in records[o].entries {
        assert before.Entered(o, key);
        Join(sender, o, records[o].entries[key]);
      } else if !opens {
        Abandon(before, sender, o);
        return WatchFailed;
      } else {
        Open(sender, o, key);
      }
      return Subscribed(sequence);
    }

    /** The native watcher could not be opened: an owner made for it is forgotten. */
    method Abandon(ghost before: Registry, sender: Sender, o: nat)
      requires Now() == before.WithOwner(sender) && before.Listened({}) && o == owners[sender] < |records|
      modifies this`owners, this`listening
      ensures Now() == before.Failed(sender)
    {
      Forgotten(before, sender);
      if sender in before.owners {
        assert |records[o].entries| > 0;
      } else {
        assert records[o].entries == map[];
      }
      Leave(sender, o);
    }

    /** The sender's owner record, made and listened to when there is none. */
    method OwnerOf(sender: Sender) returns (o: nat)
      modifies this`owners, this`records, this`listening
      ensures Now() == old(Now()).WithOwner(sender) && sender in owners && o == owners[sender]
    {
      if sender !in owners {
        owners, records := owners[sender := |records|], records + [Owner(sender, map[], 0)];
        listening := listening + {sender};
      }
      return owners[sender];
    }

    /** A subscription of an open native watcher. */
    method Join(sender: Sender, o: nat, w: nat)
      requires o < |records| && w < |watches|
      modifies this
      ensures Now() == old(Now()).Joined(sender, o, w)
    {
      sequence := sequence + 1;
      watches := watches[w := watches[w].(ids := watches[w].ids + {sequence})];
      subscriptions := subscriptions[sequence := Subscription(sender, o, w)];
      records := records[o := records[o].(subscriptionCount := records[o].subscriptionCount + 1)];
    }

    /** A new native watcher, and its first subscription. */
    method Open(sender: Sender, o: nat, key: Key)
      requires o < |records| && key !in records[o].entries
      modifies this
      ensures Now() == old(Now()).Opened(sender, o, key)
    {
      var w := |watches|;
      watches := watches + [Watch(o, key, {}, true)];
      records := records[o := records[o].(entries := records[o].entries[key := w])];
      nativeCount := nativeCount + 1;
      Join(sender, o, w);
      ghost var expected := old(Now()).Opened(sender, o, key);
      assert watches[w] == expected.watches[w];
      assert watches == expected.watches && records == expected.records;
    }

    /** `stop` of a subscription known to be the sender's. */
    method End(sender: Sender, id: nat)
      requires Valid() && id in subscriptions && subscriptions[id].sender == sender
      modifies this
      ensures Valid() && subscriptions == old(subscriptions) - {id} && |watches| == |old(watches)|
    {
      Stop(sender, id);
    }

    method StopNext(sender: Sender, ids: set<nat>, id: nat, ghost before: map<nat, Subscription>)
      requires Valid() && subscriptions == before - UpTo(ids, id)
      requires id in ids ==> id in before && before[id].sender == sender
      modifies this
      ensures Valid() && subscriptions == before - UpTo(ids, id + 1) && |watches| == |old(watches)|
    {
      NextOf(before, ids, id);
      if id in ids { End(sender, id); }
    }

    /** Stops these subscriptions of one sender, oldest first. */
    method StopAll(sender: Sender, ids: set<nat>)
      requires Valid() && forall i :: i in ids ==>
                 i in subscriptions && i <= sequence && subscriptions[i].sender == sender
      modifies this
      ensures Valid() && subscriptions == old(subscriptions) - ids && |watches| == |old(watches)|
    {
      ghost var before := subscriptions;
      var id, end := 0, sequence;
      assert before - UpTo(ids, 0) == before;
      while id <= end
        invariant 0 <= id <= end + 1 && Valid() && |watches| == |old(watches)|
        invariant subscriptions == before - UpTo(ids, id)
      {
        StopNext(sender, ids, id, before);
        id := id + 1;
      }
      assert UpTo(ids, id) == ids;
    }

    /** The owner's `dispose`, when its sender is destroyed. */
    method Dispose(sender: Sender)
      requires Valid()
      modifies this
      ensures Valid() && sender !in owners && sender !in listening
      ensures subscriptions ==
              old(subscriptions) - (set i | i in old(subscriptions) && old(subscriptions)[i].sender == sender)
    {
      forall i | i in subscriptions ensures i <= sequence {
        assert Now().Backed(i);
      }
      StopAll(sender, set i | i in subscriptions && subscriptions[i].sender == sender);
      if sender in owners {
        var i := OwnerIsUsed(Now(), limits, sender);
        assert false;
      }
    }

    /** The `error` event of a native watcher: all its subscriptions end. */
    method WatchError(w: nat)
      requires Valid() && w < |watches| && watches[w].owner < |records|
      modifies this
      ensures Valid() && w < |watches| && !watches[w].open
      ensures subscriptions == old(subscriptions) - old(watches)[w].ids
    {
      ghost var before := Now();
      SameOwner(before, w);
      StopAll(records[watches[w].owner].sender, watches[w].ids);
      NoneUses(before, Now(), w);
    }
  }

  ghost function UpTo(ids: set<nat>, n: nat): set<nat> {
    set i | i in ids && i < n
  }

  lemma NextOf(m: map<nat, Subscription>, ids: set<nat>, n: nat)
    ensures m - UpTo(ids, n + 1) == if n in ids then m - UpTo(ids, n) - {n} else m - UpTo(ids, n)
    ensures n in ids && n in m ==> n in m - UpTo(ids, n)
  {
    assert UpTo(ids, n + 1) == UpTo(ids, n) + if n in ids then {n} else {};
  }

  lemma NoneUses(before: Registry, r: Registry, w: nat)
    requires before.Linked() && r.Linked() && w < |before.watches| && w < |r.watches|
    requires r.subscriptions == before.subscriptions - before.watches[w].ids
    ensures !r.watches[w].open
  {
    assert r.Used(w);
    forall i | i in r.watches[w].ids ensures false {
      Use(before, i);
    }
  }
}
