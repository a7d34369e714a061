/**
The writing side of `backend/context_index.py`: records are retained, streams are appended to, views freeze
prefixes, and `migrate` moves the rows of legacy views into records and shared streams.
*/
module ContextStore {
  import opened Common
  import opened ContextViews
  import opened ContextLegacy
  import opened ContextSharing

  /** The first `count` members of a stream. */
  datatype Prefix = Prefix(stream: StreamId, count: nat)

  datatype Latest = Latest(head: Head, prefix: Prefix)

  /** The rows so far and the shared stream's first members agree; the stream holds the longer of the two. */
  ghost predicate Shares(rows: seq<Key>, n: nat, members: seq<Key>, now: seq<Key>)
    requires n <= |rows|
  {
    if n <= |members| then rows[..n] <= members && now == members else members <= rows[..n] && now == rows[..n]
  }

  /** Extending the agreement of rows and shared stream by one row that agrees. */
  lemma SharesStep(rows: seq<Key>, n: nat, members: seq<Key>, now: seq<Key>)
    requires n < |rows| && Shares(rows, n, members, now) && !(n < |now| && now[n] != rows[n])
    ensures Shares(rows, n + 1, members, if n < |now| then now else rows[..n + 1])
  {
    assert rows[..n + 1] == rows[..n] + [rows[n]];
  }

  /** A row that disagrees rules out that either list is a prefix of the other. */
  lemma SharesBroken(rows: seq<Key>, n: nat, members: seq<Key>, now: seq<Key>)
    requires n < |rows| && Shares(rows, n, members, now) && n < |now| && now[n] != rows[n]
    ensures !Agree(members, rows)
  {
    assert n < |members| && members[n] != rows[n];
  }

  /** Only the stream `except` may have changed. */
  ghost predicate OthersSame(before: map<StreamId, Stream>, after: map<StreamId, Stream>, except: StreamId) {
    forall s :: s in before && s != except ==> s in after && after[s] == before[s]
  }

  /**
  After `n` rows: either the rows still share the stream the walk began with, or they have diverged from
  what it held and are alone in a new one. No other stream has changed.
  */
  ghost predicate Walking(was: Tables, t: Tables, first: StreamId, members: seq<Key>, rows: seq<Key>, n: nat,
                          target: StreamId)
    requires StreamsOk(was) && StreamsOk(t) && n <= |rows|
  {
    && target in t.streams && (first in was.streams ==> Keys(was, first) == members)
    && (if target == first then Shares(rows, n, members, Keys(t, target))
        else Keys(t, target) == rows[..n] && !Agree(members, rows) && target !in was.streams)
    && OthersSame(was.streams, t.streams, target)
  }

  /** What placing one more row does to the stream `target`, or to a new one. */
  ghost predicate Moves(t: Tables, after: Tables, rows: seq<Key>, n: nat, target: StreamId, target': StreamId)
    requires StreamsOk(t) && StreamsOk(after) && target in t.streams && target' in after.streams && n < |rows|
  {
    var now, next := Keys(t, target), Keys(after, target');
    if n < |now| && now[n] != rows[n] then target' !in t.streams && next == rows[..n + 1]
    else target' == target && next == if n < |now| then now else rows[..n + 1]
  }

  lemma WalkStep(was: Tables, t: Tables, after: Tables, first: StreamId, members: seq<Key>, rows: seq<Key>, n: nat,
                 target: StreamId, target': StreamId)
    requires StreamsOk(was) && StreamsOk(t) && StreamsOk(after) && n < |rows| && Grown(was.streams, t.streams)
    requires Walking(was, t, first, members, rows, n, target) && first in t.streams && target' in after.streams
    requires OthersSame(t.streams, after.streams, target') && Moves(t, after, rows, n, target, target')
    ensures Walking(was, after, first, members, rows, n + 1, target')
  {
    var now := Keys(t, target);
    assert target' !in t.streams ==> GrownAt(was.streams, t.streams, target');
    if target == first {
      if n < |now| && now[n] != rows[n] {
        SharesBroken(rows, n, members, now);
        assert GrownAt(was.streams, t.streams, first);
      } else {
        SharesStep(rows, n, members, now);
      }
    }
  }

  /** One turn of the loop over the rows. */
  lemma {:induction false} WalkOn(was: Tables, t: Tables, after: Tables, first: StreamId, members: seq<Key>,
                                  rows: seq<Record>, n: nat, target: StreamId, target': StreamId)
    requires StreamsOk(was) && StreamsOk(t) && StreamsOk(after) && n < |rows| && Extends(was, t) && Extends(t, after)
    requires Walking(was, t, first, members, KeysOf(rows), n, target) && first in t.streams && target' in after.streams
    requires OthersSame(t.streams, after.streams, target') && Moves(t, after, KeysOf(rows), n, target, target')
    requires Retained(was.records, t.records, rows[..n]) && Retained(t.records, after.records, [rows[n]])
    ensures Walking(was, after, first, members, KeysOf(rows), n + 1, target') && first in after.streams
    ensures Extends(was, after) && Retained(was.records, after.records, rows[..n + 1])
  {
    ExtendsTransitive(was, t, after);
    assert rows[..n + 1] == rows[..n] + [rows[n]];
    RetainedTransitive(was.records, t.records, after.records, rows[..n], [rows[n]]);
    WalkStep(was, t, after, first, members, KeysOf(rows), n, target, target');
    assert GrownAt(t.streams, after.streams, first);
  }

  /** The prefix reads back the rows. */
  ghost predicate Reads(t: Tables, prefix: Prefix, rows: seq<Record>)
    requires StreamsOk(t)
  {
    prefix.stream in t.streams && prefix.count == |rows| && KeysOf(rows) <= Keys(t, prefix.stream)
  }

  /** The view records a canonical head: it has a watermark and messages. */
  predicate RecordsHead(view: LegacyView) {
    view.cursor.Some? && RowsOf(view, MessageKind) != []
  }

  function HeadKey(view: LegacyView): (Owner, Conversation, Head)
    requires view.cursor.Some?
  {
    (view.owner, view.cursor.value.0, view.cursor.value.1)
  }

  function ConversationKey(view: LegacyView): (Owner, Conversation)
    requires view.cursor.Some?
  {
    (view.owner, view.cursor.value.0)
  }

  type Views = map<ViewId, (Owner, seq<Span>)>

  /** A view has the spans and shows the records it did. */
  ghost predicate ViewKept(was: Tables, t: Tables, viewsWas: Views, views: Views, v: ViewId)
    requires v in viewsWas
  {
    && v in views && views[v] == viewsWas[v] && ViewOk(was.streams, views[v].0, views[v].1)
    && ViewOk(t.streams, views[v].0, views[v].1)
    && Content(t.streams, views[v].1) == Content(was.streams, views[v].1)
  }

  ghost predicate ViewsFollow(legacy: seq<LegacyView>, n: nat, t: Tables, was: Tables, viewsWas: Views, views: Views,
                              placed: seq<Newest>)
    requires n <= |legacy|
  {
    && |placed| == n
    && (forall i :: 0 <= i < n ==> ReadsBack(t, views, legacy[i]) && Laid(views, legacy[i], placed[i]))
    && (forall i :: n <= i < |legacy| ==> legacy[i].id !in views)
    && (forall v :: v in viewsWas ==> ViewKept(was, t, viewsWas, views, v))
  }

  /** Each kind of the view that has rows has one span, in its newest stream. */
  ghost predicate Laid(views: Views, view: LegacyView, newest: Newest) {
    && (forall kind :: (view.owner, kind) in newest)
    && view.id in views && views[view.id] == (view.owner, SpansAt(view, newest, |KINDS|))
  }

  lemma {:induction false} ViewsStep(legacy: seq<LegacyView>, n: nat, t: Tables, after: Tables, was: Tables,
                                     viewsWas: Views, views: Views, more: Views, placed: seq<Newest>, newest: Newest)
    requires n < |legacy| && ViewsFollow(legacy, n, t, was, viewsWas, views, placed) && Extends(t, after)
    requires forall i, j :: 0 <= i < j < |legacy| ==> legacy[i].id != legacy[j].id
    requires more.Keys == views.Keys + {legacy[n].id} && (forall v :: v in views ==> more[v] == views[v])
    requires ReadsBack(after, more, legacy[n]) && Laid(more, legacy[n], newest)
    ensures ViewsFollow(legacy, n + 1, after, was, viewsWas, more, placed + [newest])
  {
    forall i | 0 <= i <= n
      ensures ReadsBack(after, more, legacy[i]) && Laid(more, legacy[i], (placed + [newest])[i])
    {
      if i < n {
        assert ReadsBack(t, views, legacy[i]) && Laid(views, legacy[i], placed[i]);
        StillShowsRows(t, after, legacy[i].owner, views[legacy[i].id].1, LegacyContent(legacy[i], |KINDS|));
      }
    }
    forall v | v in viewsWas ensures ViewKept(was, after, viewsWas, more, v) {
      assert ViewKept(was, t, viewsWas, views, v);
      ViewGrows(t.streams, after.streams, views[v].0, views[v].1);
    }
  }

  /** View `i` is the first of `n` views with this head, and the prefix reads back its messages. */
  ghost predicate HeadFrom(legacy: seq<LegacyView>, n: nat, t: Tables, key: (Owner, Conversation, Head), prefix: Prefix,
                           i: nat)
    requires StreamsOk(t) && n <= |legacy|
  {
    && i < n && RecordsHead(legacy[i]) && HeadKey(legacy[i]) == key
    && Reads(t, prefix, RowsOf(legacy[i], MessageKind))
    && NoneWith(legacy, 0, i, key)
  }

  /** No view from `i` up to `n` has this head. */
  predicate NoneWith(legacy: seq<LegacyView>, i: nat, n: nat, key: (Owner, Conversation, Head))
    requires n <= |legacy|
  {
    forall j :: i <= j < n && RecordsHead(legacy[j]) ==> HeadKey(legacy[j]) != key
  }

  /** View `i` is the last of `n` views of this conversation, and the prefix reads back its messages. */
  ghost predicate LatestFrom(legacy: seq<LegacyView>, n: nat, t: Tables, key: (Owner, Conversation), latest: Latest,
                             i: nat)
    requires StreamsOk(t) && n <= |legacy|
  {
    && i < n && RecordsHead(legacy[i]) && ConversationKey(legacy[i]) == key && legacy[i].cursor.value.1 == latest.head
    && Reads(t, latest.prefix, RowsOf(legacy[i], MessageKind))
    && Unseen(legacy, i + 1, n, key)
  }

  type Heads = map<(Owner, Conversation, Head), Prefix>

  type Latests = map<(Owner, Conversation), Latest>

  /** Heads known before stay; every other one reads back the messages of the first migrated view with that head. */
  ghost predicate HeadsFollow(legacy: seq<LegacyView>, n: nat, t: Tables, was: Heads, heads: Heads)
    requires StreamsOk(t) && n <= |legacy|
  {
    && (forall k :: k in was ==> k in heads && heads[k] == was[k])
    && (forall i :: 0 <= i < n && RecordsHead(legacy[i]) ==> HeadKey(legacy[i]) in heads)
    && (forall k :: k in heads && k !in was ==> SomeHead(legacy, n, t, k, heads[k]))
  }

  ghost predicate SomeHead(legacy: seq<LegacyView>, n: nat, t: Tables, key: (Owner, Conversation, Head), prefix: Prefix)
    requires StreamsOk(t) && n <= |legacy|
  {
    exists i: nat :: HeadFrom(legacy, n, t, key, prefix, i)
  }

  ghost predicate SomeLatest(legacy: seq<LegacyView>, n: nat, t: Tables, key: (Owner, Conversation), latest: Latest)
    requires StreamsOk(t) && n <= |legacy|
  {
    exists i: nat :: LatestFrom(legacy, n, t, key, latest, i)
  }

  /** No view from `i` up to `n` is of this conversation. */
  predicate Unseen(legacy: seq<LegacyView>, i: nat, n: nat, key: (Owner, Conversation))
    requires n <= |legacy|
  {
    forall j :: i <= j < n && RecordsHead(legacy[j]) ==> ConversationKey(legacy[j]) != key
  }

  /** The latest head of a conversation is the one of its last migrated view, if there is any. */
  ghost predicate LatestFollows(legacy: seq<LegacyView>, n: nat, t: Tables, was: Latests, latest: Latests)
    requires StreamsOk(t) && n <= |legacy|
  {
    && (forall i :: 0 <= i < n && RecordsHead(legacy[i]) ==> ConversationKey(legacy[i]) in latest)
    && (forall k :: k in latest ==>
          SomeLatest(legacy, n, t, k, latest[k]) || (k in was && latest[k] == was[k] && Unseen(legacy, 0, n, k)))
  }

  lemma {:induction false} ReadsOn(t: Tables, after: Tables, prefix: Prefix, rows: seq<Record>)
    requires StreamsOk(t) && StreamsOk(after) && Extends(t, after) && Reads(t, prefix, rows)
    ensures Reads(after, prefix, rows)
  {
    KeysGrow(t, after, prefix.stream);
  }

  lemma {:induction false} HeadStays(legacy: seq<LegacyView>, n: nat, t: Tables, after: Tables,
                                     key: (Owner, Conversation, Head), prefix: Prefix)
    requires StreamsOk(t) && StreamsOk(after) && Extends(t, after) && n < |legacy|
    requires SomeHead(legacy, n, t, key, prefix)
    ensures SomeHead(legacy, n + 1, after, key, prefix)
  {
    var i: nat :| HeadFrom(legacy, n, t, key, prefix, i);
    ReadsOn(t, after, prefix, RowsOf(legacy[i], MessageKind));
    assert HeadFrom(legacy, n + 1, after, key, prefix, i);
  }

  lemma {:induction false} LatestStays(legacy: seq<LegacyView>, n: nat, t: Tables, after: Tables,
                                       key: (Owner, Conversation), latest: Latest)
    requires StreamsOk(t) && StreamsOk(after) && Extends(t, after) && n < |legacy|
    requires RecordsHead(legacy[n]) ==> ConversationKey(legacy[n]) != key
    requires SomeLatest(legacy, n, t, key, latest)
    ensures SomeLatest(legacy, n + 1, after, key, latest)
  {
    var i: nat :| LatestFrom(legacy, n, t, key, latest, i);
    ReadsOn(t, after, latest.prefix, RowsOf(legacy[i], MessageKind));
    assert LatestFrom(legacy, n + 1, after, key, latest, i);
  }

  lemma {:induction false} HeadsStep(legacy: seq<LegacyView>, n: nat, t: Tables, after: Tables, was: Heads,
                                     heads: Heads, more: Heads, prefix: Prefix)
    requires StreamsOk(t) && StreamsOk(after) && Extends(t, after)
    requires n < |legacy| && HeadsFollow(legacy, n, t, was, heads)
    requires if RecordsHead(legacy[n])
             then Reads(after, prefix, RowsOf(legacy[n], MessageKind))
                  && more == (if HeadKey(legacy[n]) in heads then heads else heads[HeadKey(legacy[n]) := prefix])
             else more == heads
    ensures HeadsFollow(legacy, n + 1, after, was, more)
  {
    forall k | k in more && k !in was ensures SomeHead(legacy, n + 1, after, k, more[k]) {
      if k in heads {
        HeadStays(legacy, n, t, after, k, heads[k]);
      } else {
        assert HeadFrom(legacy, n + 1, after, k, more[k], n);
      }
    }
  }

  lemma {:induction false} LatestStep(legacy: seq<LegacyView>, n: nat, t: Tables, after: Tables, was: Latests,
                                      latest: Latests, more: Latests, prefix: Prefix)
    requires StreamsOk(t) && StreamsOk(after) && Extends(t, after)
    requires n < |legacy| && LatestFollows(legacy, n, t, was, latest)
    requires if RecordsHead(legacy[n])
             then Reads(after, prefix, RowsOf(legacy[n], MessageKind))
                  && more == latest[ConversationKey(legacy[n]) := Latest(legacy[n].cursor.value.1, prefix)]
             else more == latest
    ensures LatestFollows(legacy, n + 1, after, was, more)
  {
    forall k | k in more
      ensures
        SomeLatest(legacy, n + 1, after, k, more[k]) || (k in was && more[k] == was[k] && Unseen(legacy, 0, n + 1, k))
    {
      if RecordsHead(legacy[n]) && ConversationKey(legacy[n]) == k {
        assert LatestFrom(legacy, n + 1, after, k, more[k], n);
      } else if SomeLatest(legacy, n, t, k, latest[k]) {
        LatestStays(legacy, n, t, after, k, latest[k]);
      }
    }
  }

  /** A stream with one more member, or a new stream, leaves the tables sound and every stream grown. */
  lemma StreamsStayOk(t: Tables, s: StreamId, st: Stream)
    requires StreamsOk(t) && forall m :: 0 <= m < |st.members| ==> Fits(t, st, st.members[m])
    requires s in t.streams ==>
               t.streams[s].owner == st.owner && t.streams[s].kind == st.kind && t.streams[s].members <= st.members
    ensures StreamsOk(t.(streams := t.streams[s := st])) && Grown(t.streams, t.streams[s := st])
  {
    var t' := t.(streams := t.streams[s := st]);
    forall x, m | x in t'.streams && 0 <= m < |t'.streams[x].members|
      ensures Fits(t', t'.streams[x], t'.streams[x].members[m])
    {
      assert Fits(t, t'.streams[x], t'.streams[x].members[m]);
    }
  }

  /** The tables with one more record. */
  lemma RecordsStayOk(t: Tables, r: RecordId, row: Record)
    requires StreamsOk(t) && row.text in t.texts && (r in t.records ==> t.records[r] == row)
    ensures StreamsOk(t.(records := t.records[r := row])) && Extends(t, t.(records := t.records[r := row]))
  {
    var t' := t.(records := t.records[r := row]);
    forall x, m | x in t'.streams && 0 <= m < |t'.streams[x].members|
      ensures Fits(t', t'.streams[x], t'.streams[x].members[m])
    {
      assert Fits(t, t.streams[x], t.streams[x].members[m]);
    }
  }

  /** The newest stream of an owner and kind is theirs. */
  predicate NewestOk(t: Tables, newest: Newest, owner: Owner, kind: Kind) {
    (owner, kind) in newest ==>
      var s := newest[(owner, kind)];
      s in t.streams && t.streams[s].owner == owner && t.streams[s].kind == kind
  }

  ghost predicate AllNewest(t: Tables, newest: Newest) {
    forall owner, kind :: NewestOk(t, newest, owner, kind)
  }

  /** A change of one newest stream leaves those of other owners and kinds alone. */
  lemma OthersWait(was: Tables, newestWas: Newest, t: Tables, newest: Newest, owner: Owner, kind: Kind,
                   target: StreamId)
    requires AllNewest(was, newestWas) && AllNewest(t, newest) && newest == newestWas[(owner, kind) := target]
    requires OthersSame(was.streams, t.streams, target)
    ensures OnlyKind(was, newestWas, t, newest, owner, kind)
  {
    forall o, k | !(o == owner && k == kind) ensures Waits(was, newestWas, t, newest, o, k) {
      assert NewestOk(was, newestWas, o, k) && NewestOk(t, newest, o, k) && NewestOk(t, newest, owner, kind);
    }
  }

  lemma WalkedPlaces(was: Tables, newestWas: Newest, t: Tables, newest: Newest, owner: Owner, kind: Kind,
                     first: StreamId, members: seq<Key>, rows: seq<Key>, target: StreamId)
    requires StreamsOk(was) && StreamsOk(t) && Walking(was, t, first, members, rows, |rows|, target)
    requires (owner, kind) in newest && newest[(owner, kind)] == target && NewestOk(was, newestWas, owner, kind)
    requires if (owner, kind) in newestWas then first == newestWas[(owner, kind)] && first in was.streams
             else first !in was.streams && members == []
    ensures Placed(was, newestWas, t, newest, owner, kind, rows)
  {
    assert rows[..|rows|] == rows;
    assert Held(was, newestWas, owner, kind) == members;
  }

  /** Where the walk over all rows has ended. */
  lemma {:induction false} WalkEnds(was: Tables, newestWas: Newest, t: Tables, newest: Newest, owner: Owner,
                                    kind: Kind, first: StreamId, members: seq<Key>, rows: seq<Record>,
                                    target: StreamId)
    requires StreamsOk(was) && StreamsOk(t) && Walking(was, t, first, members, KeysOf(rows), |rows|, target)
    requires AllNewest(was, newestWas) && AllNewest(t, newest) && newest == newestWas[(owner, kind) := target]
    requires if (owner, kind) in newestWas then first == newestWas[(owner, kind)] && first in was.streams
             else first !in was.streams && members == []
    ensures rows[..|rows|] == rows && KeysOf(rows)[..|rows|] == KeysOf(rows)
    ensures Placed(was, newestWas, t, newest, owner, kind, KeysOf(rows))
    ensures OnlyKind(was, newestWas, t, newest, owner, kind)
  {
    assert rows[..|rows|] == rows && KeysOf(rows)[..|rows|] == KeysOf(rows);
    assert NewestOk(was, newestWas, owner, kind);
    WalkedPlaces(was, newestWas, t, newest, owner, kind, first, members, KeysOf(rows), target);
    OthersWait(was, newestWas, t, newest, owner, kind, target);
  }

  /** A span of a stream that begins with the rows shows them after what was shown. */
  lemma {:induction false} RowsAdded(t: Tables, owner: Owner, spans: seq<Span>, shown: seq<Record>, s: StreamId,
                                     rows: seq<Record>)
    requires StreamsOk(t) && ShowsRows(t, owner, spans, shown)
    requires s in t.streams && t.streams[s].owner == owner && KeysOf(rows) <= Keys(t, s)
    ensures ShowsRows(t, owner, spans + [Span(s, |rows|, |shown|)], shown + rows)
  {
    var ids, more := Content(t.streams, spans), t.streams[s].members[..|rows|];
    assert |ids| == |KeysAt(t.records, ids)| == |shown|;
    SpanAdded(t.streams, owner, spans, s, |rows|);
    assert forall i :: 0 <= i < |more| ==> more[i] == t.streams[s].members[i] && Keys(t, s)[i] == KeysOf(rows)[i];
    assert KeysAt(t.records, more) == KeysOf(rows);
    KeysAtAppend(t.records, ids, more);
    KeysAppend(shown, rows);
  }

  // ---- one view after another ----------------------------------------------------------------------------------

  /** The first `k` kinds of a view have been migrated. */
  ghost predicate Halfway(was: Tables, t: Tables, newest: Newest, view: LegacyView, k: nat, spans: seq<Span>)
    requires StreamsOk(was) && StreamsOk(t) && k <= |KINDS|
  {
    && Extends(was, t) && Retained(was.records, t.records, LegacyContent(view, k))
    && ShowsRows(t, view.owner, spans, LegacyContent(view, k))
    && (forall j :: 0 <= j < k ==> (view.owner, KINDS[j]) in newest) && spans == SpansAt(view, newest, k)
  }

  lemma HalfwayStart(t: Tables, newest: Newest, view: LegacyView)
    requires StreamsOk(t) && KeysUnique(t.records) && AllNewest(t, newest)
    ensures Halfway(t, t, newest, view, 0, []) && KindsPlaced(t, newest, t, newest, view, 0)
  {
    RetainedNothing(t.records);
    forall owner, kind ensures Waits(t, newest, t, newest, owner, kind) {
      assert NewestOk(t, newest, owner, kind);
    }
  }

  lemma SpansStay(t: Tables, newest: Newest, after: Tables, newestAfter: Newest, view: LegacyView, k: nat)
    requires k < |KINDS| && forall j :: 0 <= j < k ==> (view.owner, KINDS[j]) in newest
    requires OnlyKind(t, newest, after, newestAfter, view.owner, KINDS[k])
    ensures forall j :: 0 <= j < k ==> (view.owner, KINDS[j]) in newestAfter
    ensures SpansAt(view, newestAfter, k) == SpansAt(view, newest, k)
  {
    forall j | 0 <= j < k
      ensures (view.owner, KINDS[j]) in newestAfter
           && newestAfter[(view.owner, KINDS[j])] == newest[(view.owner, KINDS[j])]
    {
      assert Turn(KINDS[j]) == j && Turn(KINDS[k]) == k;
      assert Waits(t, newest, after, newestAfter, view.owner, KINDS[j]);
    }
    SpansWait(view, newest, newestAfter, k);
  }

  lemma RowsStep(was: Tables, t: Tables, after: Tables, view: LegacyView, k: nat)
    requires Extends(was, t) && Extends(t, after) && k < |KINDS|
    requires Retained(was.records, t.records, LegacyContent(view, k))
    requires Retained(t.records, after.records, RowsOf(view, KINDS[k]))
    ensures Extends(was, after) && Retained(was.records, after.records, LegacyContent(view, k + 1))
  {
    ExtendsTransitive(was, t, after);
    RetainedTransitive(was.records, t.records, after.records, LegacyContent(view, k), RowsOf(view, KINDS[k]));
  }

  lemma HalfwayStep(was: Tables, t: Tables, newest: Newest, after: Tables, newestAfter: Newest, view: LegacyView,
                    k: nat, spans: seq<Span>, more: seq<Span>)
    requires StreamsOk(was) && StreamsOk(t) && StreamsOk(after) && Extends(t, after) && k < |KINDS|
    requires Halfway(was, t, newest, view, k, spans)
    requires OnlyKind(t, newest, after, newestAfter, view.owner, KINDS[k])
    requires var rows, key := RowsOf(view, KINDS[k]), (view.owner, KINDS[k]);
             && key in newestAfter && Retained(t.records, after.records, rows)
             && ShowsRows(after, view.owner, more, LegacyContent(view, k) + rows)
             && more == spans + if rows == [] then [] else [Span(newestAfter[key], |rows|, |LegacyContent(view, k)|)]
    ensures Halfway(was, after, newestAfter, view, k + 1, more)
  {
    RowsStep(was, t, after, view, k);
    SpansStay(t, newest, after, newestAfter, view, k);
  }

  /** What `RecordHead` leaves. */
  predicate HeadRecorded(view: LegacyView, newest: Newest, headsWas: Heads, heads: Heads, latestWas: Latests,
                         latest: Latests) {
    if RecordsHead(view) then
      && (view.owner, MessageKind) in newest
      && var prefix := Prefix(newest[(view.owner, MessageKind)], |RowsOf(view, MessageKind)|);
         && heads == (if HeadKey(view) in headsWas then headsWas else headsWas[HeadKey(view) := prefix])
         && latest == latestWas[ConversationKey(view) := Latest(view.cursor.value.1, prefix)]
    else heads == headsWas && latest == latestWas
  }

  /** A migrated view is laid out in the newest streams. */
  lemma AllPlaced(was: Tables, t: Tables, newest: Newest, view: LegacyView, spans: seq<Span>)
    requires StreamsOk(was) && StreamsOk(t) && Halfway(was, t, newest, view, |KINDS|, spans)
    ensures forall kind :: (view.owner, kind) in newest
    ensures spans == SpansAt(view, newest, |KINDS|)
  {
    forall kind ensures (view.owner, kind) in newest {
      assert KINDS[Turn(kind)] == kind;
    }
  }

  /** The first `n` views have been migrated. */
  ghost predicate Migrating(legacy: seq<LegacyView>, n: nat, was: Tables, newestWas: Newest, viewsWas: Views, t: Tables,
                            newest: Newest, views: Views, placed: seq<Newest>)
    requires StreamsOk(was) && StreamsOk(t) && n <= |legacy|
  {
    && Extends(was, t) && Retained(was.records, t.records, Arrivals(legacy, n))
    && ViewsFollow(legacy, n, t, was, viewsWas, views, placed)
    && Sharing(was, newestWas, legacy, n, t, newest, placed)
  }

  lemma {:induction false} MigrationStart(t: Tables, newest: Newest, views: Views, legacy: seq<LegacyView>)
    requires StreamsOk(t) && KeysUnique(t.records) && AllNewest(t, newest)
    requires forall i :: 0 <= i < |legacy| ==> legacy[i].id !in views
    requires forall v :: v in views ==> ViewOk(t.streams, views[v].0, views[v].1)
    ensures Migrating(legacy, 0, t, newest, views, t, newest, views, [])
  {
    RetainedNothing(t.records);
    forall key | key in newest ensures newest[key] in t.streams {
      assert NewestOk(t, newest, key.0, key.1);
    }
    NothingShared(t, newest, legacy);
  }

  lemma {:induction false} MigrationStep(legacy: seq<LegacyView>, n: nat, was: Tables, newestWas: Newest,
                                         viewsWas: Views, t: Tables, newest: Newest, views: Views, after: Tables,
                                         newestAfter: Newest, more: Views, placed: seq<Newest>)
    requires StreamsOk(was) && StreamsOk(t) && StreamsOk(after) && Extends(t, after) && n < |legacy|
    requires forall i, j :: 0 <= i < j < |legacy| ==> legacy[i].id != legacy[j].id
    requires Migrating(legacy, n, was, newestWas, viewsWas, t, newest, views, placed)
    requires Retained(t.records, after.records, LegacyContent(legacy[n], |KINDS|))
    requires ReadsBack(after, more, legacy[n]) && Laid(more, legacy[n], newestAfter)
    requires more == views[legacy[n].id := more[legacy[n].id]]
    requires KindsPlaced(t, newest, after, newestAfter, legacy[n], |KINDS|)
    ensures Migrating(legacy, n + 1, was, newestWas, viewsWas, after, newestAfter, more, placed + [newestAfter])
  {
    ExtendsTransitive(was, t, after);
    RetainedTransitive(was.records, t.records, after.records, Arrivals(legacy, n), LegacyContent(legacy[n], |KINDS|));
    ViewsStep(legacy, n, t, after, was, viewsWas, views, more, placed, newestAfter);
    SharingStep(was, newestWas, legacy, n, t, newest, placed, after, newestAfter);
  }

  lemma {:induction false} HeadStep(legacy: seq<LegacyView>, n: nat, t: Tables, newest: Newest, after: Tables,
                                    newestAfter: Newest, headsWas: Heads, heads: Heads, more: Heads,
                                    latestWas: Latests, latest: Latests, later: Latests)
    requires StreamsOk(t) && StreamsOk(after) && Extends(t, after) && n < |legacy|
    requires KindsPlaced(t, newest, after, newestAfter, legacy[n], |KINDS|)
    requires HeadsFollow(legacy, n, t, headsWas, heads) && LatestFollows(legacy, n, t, latestWas, latest)
    requires HeadRecorded(legacy[n], newestAfter, heads, more, latest, later)
    ensures HeadsFollow(legacy, n + 1, after, headsWas, more) && LatestFollows(legacy, n + 1, after, latestWas, later)
  {
    assert PlacedAt(t, newest, after, newestAfter, legacy[n], 0);
    var prefix := Prefix(newestAfter[(legacy[n].owner, MessageKind)], |RowsOf(legacy[n], MessageKind)|);
    HeadsStep(legacy, n, t, after, headsWas, heads, more, prefix);
    LatestStep(legacy, n, t, after, latestWas, latest, later, prefix);
  }

  class Store {
    var t: Tables
    var views: Views
    /** The stream with identity `legacy` and the largest row id, per owner and kind. */
    var newest: Newest
    var made: nat
    var madeRecords: nat
    /** The prefix certified for a head, and the latest one of a conversation. */
    var heads: Heads
    var latest: Latests

    ghost predicate Valid()
      reads this
    {
      && StreamsOk(t) && KeysUnique(t.records)
      && (forall s :: s in t.streams ==> s < made) && (forall r :: r in t.records ==> r < madeRecords)
      && AllNewest(t, newest)
    }

    /** A store before its first migration: there are texts, and nothing that refers to them. */
    constructor (texts: map<TextId, string>)
      ensures Valid() && t == Tables(map[], texts, map[]) && views == map[] && newest == map[]
      ensures heads == map[] && latest == map[]
    {
      t, views, newest, made, madeRecords := Tables(map[], texts, map[]), map[], map[], 0, 0;
      heads, latest := map[], map[];
    }

    /** `record`: the stored record of the key, whatever its text, or a new one. */
    method Retain(row: Record) returns (r: RecordId)
      requires Valid() && row.text in t.texts
      modifies this`t, this`madeRecords
      ensures Valid() && Extends(old(t), t) && t.streams == old(t.streams)
      ensures t.records == WithRow(old(t.records), r, row) && Retained(old(t.records), t.records, [row])
      ensures r in t.records && KeyOf(t.records[r]) == KeyOf(row)
    {
      if x :| x in t.records && KeyOf(t.records[x]) == KeyOf(row) {
        RetainedOne(t.records, x, row);
        return x;
      }
      r := madeRecords;
      RetainedOne(t.records, r, row);
      RecordsStayOk(t, r, row);
      t, madeRecords := t.(records := t.records[r := row]), r + 1;
      assert forall owner, kind :: NewestOk(old(t), old(newest), owner, kind) ==> NewestOk(t, newest, owner, kind);
    }

    /** `append`. */
    method Append(s: StreamId, r: RecordId)
      requires Valid() && s in t.streams && Fits(t, t.streams[s], r)
      requires r !in t.streams[s].members
      modifies this`t
      ensures Valid() && Extends(old(t), t) && t == Appended(old(t), s, r)
    {
      StreamsStayOk(t, s, t.streams[s].(members := t.streams[s].members + [r]));
      t := Appended(t, s, r);
      assert forall owner, kind :: NewestOk(old(t), old(newest), owner, kind) ==> NewestOk(t, newest, owner, kind);
    }

    /** `stream(..., 'legacy', fresh=True)`, filled with a copied prefix. */
    method Fresh(owner: Owner, kind: Kind, members: seq<RecordId>) returns (s: StreamId)
      requires Valid() && forall m :: 0 <= m < |members| ==> Fits(t, Stream(owner, kind, members), members[m])
      modifies this`t, this`newest, this`made
      ensures Valid() && Extends(old(t), t) && s !in old(t.streams)
      ensures t == old(t).(streams := old(t.streams)[s := Stream(owner, kind, members)])
      ensures newest == old(newest)[(owner, kind) := s]
    {
      s := made;
      StreamsStayOk(t, s, Stream(owner, kind, members));
      t := t.(streams := t.streams[s := Stream(owner, kind, members)]);
      newest, made := newest[(owner, kind) := s], made + 1;
      assert forall o, k :: NewestOk(old(t), old(newest), o, k) ==> NewestOk(t, newest, o, k);
    }

    /** The stream `target` of the owner and kind begins with the rows. */
    ghost predicate Holds(target: StreamId, owner: Owner, kind: Kind, rows: seq<Key>)
      requires StreamsOk(t)
      reads this`t
    {
      && target in t.streams && t.streams[target].owner == owner && t.streams[target].kind == kind
      && rows <= Keys(t, target)
    }

    /** One legacy row: its record is retained; then it is already there, appended, or the reason for a new stream. */
    method PlaceRow(owner: Owner, kind: Kind, rows: seq<Record>, n: nat, target: StreamId) returns (target': StreamId)
      requires Valid() && LegacyRows(t.texts, owner, kind, rows) && n < |rows|
      requires Holds(target, owner, kind, KeysOf(rows)[..n]) && (owner, kind) in newest
      requires newest[(owner, kind)] == target
      modifies this`t, this`newest, this`made, this`madeRecords
      ensures Valid() && Extends(old(t), t) && Retained(old(t.records), t.records, [rows[n]])
      ensures Holds(target', owner, kind, KeysOf(rows)[..n + 1]) && newest == old(newest)[(owner, kind) := target']
      ensures OthersSame(old(t.streams), t.streams, target') && Moves(old(t), t, KeysOf(rows), n, target, target')
    {
      ghost var was := t;
      var r := Retain(rows[n]);
      ghost var before := t;
      KeysGrow(was, before, target);
      target' := Place(rows[n].owner, kind, KeysOf(rows), n, target, r);
      ExtendsTransitive(was, before, t);
    }

    /** ... once its record is known. */
    method Place(owner: Owner, kind: Kind, ghost rows: seq<Key>, n: nat, target: StreamId, r: RecordId)
      returns (target': StreamId)
      requires Valid() && n < |rows| && Holds(target, owner, kind, rows[..n]) && (owner, kind) in newest
      requires newest[(owner, kind)] == target && (forall i :: 0 <= i < n ==> rows[i] != rows[n])
      requires Fits(t, t.streams[target], r) && KeyOf(t.records[r]) == rows[n]
      modifies this`t, this`newest, this`made
      ensures Valid() && Extends(old(t), t) && t.records == old(t.records)
      ensures Holds(target', owner, kind, rows[..n + 1]) && newest == old(newest)[(owner, kind) := target']
      ensures OthersSame(old(t.streams), t.streams, target') && Moves(old(t), t, rows, n, target, target')
    {
      ghost var was := t;
      var members := t.streams[target].members;
      assert rows[..n + 1] == rows[..n] + [rows[n]];
      assert n < |members| ==> (Keys(t, target)[n] == rows[n] <==> SameKey(t.records, members[n], r));
      target' := target;
      if n < |members| && members[n] != r {
        target' := Fresh(owner, kind, members[..n]);
        ghost var copied := t;
        Append(target', r);
        ExtendsTransitive(was, copied, t);
      } else if n >= |members| {
        Append(target', r);
        assert newest == newest[(owner, kind) := target];
      } else {
        assert newest == newest[(owner, kind) := target];
      }
    }

    /** `stream(..., 'legacy')`: the newest stream of the owner and kind, or a first one. */
    method NewestOf(owner: Owner, kind: Kind) returns (target: StreamId)
      requires Valid()
      modifies this`t, this`newest, this`made
      ensures Valid() && Extends(old(t), t) && t.records == old(t.records) && Holds(target, owner, kind, [])
      ensures newest == old(newest)[(owner, kind) := target]
      ensures if (owner, kind) in old(newest) then target == old(newest)[(owner, kind)] && t == old(t)
              else target !in old(t.streams)
                   && t == old(t).(streams := old(t.streams)[target := Stream(owner, kind, [])])
    {
      if (owner, kind) in newest {
        target := newest[(owner, kind)];
        assert NewestOk(t, newest, owner, kind);
        assert newest == newest[(owner, kind) := target];
      } else {
        target := Fresh(owner, kind, []);
      }
    }

    /**
    The loop over the rows of one view and kind. The newest stream is shared exactly when it and the
    rows are prefixes of one another; otherwise the rows get a stream of their own.
    */
    method MigrateKind(owner: Owner, kind: Kind, rows: seq<Record>) returns (target: StreamId)
      requires Valid() && LegacyRows(t.texts, owner, kind, rows)
      modifies this`t, this`newest, this`made, this`madeRecords
      ensures Valid() && Extends(old(t), t) && Retained(old(t.records), t.records, rows)
      ensures Holds(target, owner, kind, KeysOf(rows)) && newest == old(newest)[(owner, kind) := target]
      ensures Placed(old(t), old(newest), t, newest, owner, kind, KeysOf(rows))
      ensures OnlyKind(old(t), old(newest), t, newest, owner, kind)
    {
      ghost var was, newestWas, keys := t, newest, KeysOf(rows);
      RetainedNothing(t.records);
      target := NewestOf(owner, kind);
      ghost var first := target;
      ghost var members := Keys(t, first);
      for n := 0 to |rows|
        invariant Valid() && Extends(was, t) && Retained(was.records, t.records, rows[..n])
        invariant Holds(target, owner, kind, keys[..n]) && first in t.streams
        invariant newest == newestWas[(owner, kind) := target]
        invariant Walking(was, t, first, members, keys, n, target)
      {
        target := WalkRow(owner, kind, rows, n, target, was, newestWas, first, members);
      }
      WalkEnds(was, newestWas, t, newest, owner, kind, first, members, rows, target);
    }

    method WalkRow(owner: Owner, kind: Kind, rows: seq<Record>, n: nat, target: StreamId, ghost was: Tables,
                   ghost newestWas: Newest, ghost first: StreamId, ghost members: seq<Key>)
      returns (target': StreamId)
      requires Valid() && LegacyRows(t.texts, owner, kind, rows) && n < |rows|
      requires StreamsOk(was) && Extends(was, t) && Retained(was.records, t.records, rows[..n])
      requires Holds(target, owner, kind, KeysOf(rows)[..n]) && first in t.streams
      requires newest == newestWas[(owner, kind) := target]
      requires Walking(was, t, first, members, KeysOf(rows), n, target)
      modifies this`t, this`newest, this`made, this`madeRecords
      ensures Valid() && Extends(was, t) && Retained(was.records, t.records, rows[..n + 1])
      ensures Holds(target', owner, kind, KeysOf(rows)[..n + 1]) && first in t.streams
      ensures newest == newestWas[(owner, kind) := target']
      ensures Walking(was, t, first, members, KeysOf(rows), n + 1, target')
    {
      ghost var before := t;
      target' := PlaceRow(owner, kind, rows, n, target);
      WalkOn(was, before, t, first, members, rows, n, target, target');
    }

    /** Every view can be read. */
    ghost predicate ViewsReadable()
      reads this
    {
      forall v :: v in views ==> ViewOk(t.streams, views[v].0, views[v].1)
    }

    /** One kind of a view: its rows are placed, and its span added where the last one ends. */
    method MigrateSpan(view: LegacyView, kind: Kind, spans: seq<Span>, ghost shown: seq<Record>, offset: nat)
      returns (more: seq<Span>)
      requires Valid() && LegacyOk(t.texts, view) && ShowsRows(t, view.owner, spans, shown) && offset == |shown|
      modifies this`t, this`newest, this`made, this`madeRecords
      ensures Valid() && Extends(old(t), t) && Retained(old(t.records), t.records, RowsOf(view, kind))
      ensures Placed(old(t), old(newest), t, newest, view.owner, kind, KeysOf(RowsOf(view, kind)))
      ensures OnlyKind(old(t), old(newest), t, newest, view.owner, kind)
      ensures ShowsRows(t, view.owner, more, shown + RowsOf(view, kind))
      ensures more == spans + if RowsOf(view, kind) == [] then []
                              else [Span(newest[(view.owner, kind)], |RowsOf(view, kind)|, offset)]
    {
      ghost var was := t;
      var rows := RowsOf(view, kind);
      var target := MigrateKind(view.owner, kind, rows);
      StillShowsRows(was, t, view.owner, spans, shown);
      more := spans;
      if rows != [] {
        more := spans + [Span(target, |rows|, offset)];
        RowsAdded(t, view.owner, spans, shown, target, rows);
      } else {
        assert shown + rows == shown;
      }
    }

    method MigrateNextKind(view: LegacyView, k: nat, spans: seq<Span>, offset: nat, ghost was: Tables,
                           ghost newestWas: Newest) returns (more: seq<Span>)
      requires Valid() && LegacyOk(t.texts, view) && StreamsOk(was) && k < |KINDS|
      requires Halfway(was, t, newest, view, k, spans) && offset == |LegacyContent(view, k)|
      requires KindsPlaced(was, newestWas, t, newest, view, k)
      modifies this`t, this`newest, this`made, this`madeRecords
      ensures Valid() && t.texts == old(t.texts) && Halfway(was, t, newest, view, k + 1, more)
      ensures KindsPlaced(was, newestWas, t, newest, view, k + 1)
    {
      ghost var before, newestBefore := t, newest;
      more := MigrateSpan(view, KINDS[k], spans, LegacyContent(view, k), offset);
      KindsStep(was, newestWas, before, newestBefore, t, newest, view, k);
      HalfwayStep(was, before, newestBefore, t, newest, view, k, spans, more);
    }

    /** `span`, once per kind that has rows, each at the offset where the one before ends. */
    method MigrateSpans(view: LegacyView) returns (spans: seq<Span>)
      requires Valid() && LegacyOk(t.texts, view)
      modifies this`t, this`newest, this`made, this`madeRecords
      ensures Valid() && Halfway(old(t), t, newest, view, |KINDS|, spans)
      ensures KindsPlaced(old(t), old(newest), t, newest, view, |KINDS|)
    {
      spans := [];
      var offset := 0;
      ghost var was, newestWas := t, newest;
      HalfwayStart(t, newest, view);
      for k := 0 to |KINDS|
        invariant Valid() && t.texts == was.texts && Halfway(was, t, newest, view, k, spans)
        invariant KindsPlaced(was, newestWas, t, newest, view, k)
        invariant offset == |LegacyContent(view, k)|
      {
        spans := MigrateNextKind(view, k, spans, offset, was, newestWas);
        offset := offset + |RowsOf(view, KINDS[k])|;
      }
    }

    /** The canonical head of a migrated view: the first prefix recorded for it stays, the latest is replaced. */
    method RecordHead(view: LegacyView)
      requires Valid() && (RecordsHead(view) ==> (view.owner, MessageKind) in newest)
      modifies this`heads, this`latest
      ensures Valid() && HeadRecorded(view, newest, old(heads), heads, old(latest), latest)
    {
      if RecordsHead(view) {
        var prefix := Prefix(newest[(view.owner, MessageKind)], |RowsOf(view, MessageKind)|);
        if HeadKey(view) !in heads {
          heads := heads[HeadKey(view) := prefix];
        }
        latest := latest[ConversationKey(view) := Latest(view.cursor.value.1, prefix)];
      }
    }

    /** One legacy view: it shows its rows, and every other view shows what it showed. */
    method MigrateView(view: LegacyView)
      requires Valid() && ViewsReadable() && LegacyOk(t.texts, view) && view.id !in views
      modifies this
      ensures Valid() && ViewsReadable() && Extends(old(t), t)
      ensures Retained(old(t.records), t.records, LegacyContent(view, |KINDS|))
      ensures ReadsBack(t, views, view) && Laid(views, view, newest)
      ensures views == old(views)[view.id := views[view.id]]
      ensures KindsPlaced(old(t), old(newest), t, newest, view, |KINDS|)
      ensures HeadRecorded(view, newest, old(heads), heads, old(latest), latest)
    {
      ghost var was := t;
      var spans := MigrateSpans(view);
      AllPlaced(was, t, newest, view, spans);
      RecordHead(view);
      forall v | v in views ensures ViewOk(t.streams, views[v].0, views[v].1) {
        ViewGrows(was.streams, t.streams, views[v].0, views[v].1);
      }
      views := views[view.id := (view.owner, spans)];
    }

    /**
    `migrate`, from whatever records there are. Every legacy view shows records with the owner, source and
    version of its rows, in order, and no view that existed or was migrated earlier is changed by what follows.
    A record has the text first seen for its key: all views read back their texts exactly if no two rows with one
    key, and no row and stored record with one key, have different texts. Two views of an owner have a kind in one
    stream exactly if none of the owner's after the first, up to the second, diverges. A canonical head reads back
    the messages of the first view that has it, and the latest head of a conversation is that of its last view.
    */
    method Migrate(legacy: seq<LegacyView>) returns (ghost placed: seq<Newest>)
      requires Valid() && ViewsReadable()
      requires forall i :: 0 <= i < |legacy| ==> LegacyOk(t.texts, legacy[i]) && legacy[i].id !in views
      requires forall i, j :: 0 <= i < j < |legacy| ==> legacy[i].id != legacy[j].id
      modifies this
      ensures Valid() && ViewsReadable() && Extends(old(t), t)
      ensures Retained(old(t.records), t.records, Arrivals(legacy, |legacy|))
      ensures ViewsFollow(legacy, |legacy|, t, old(t), old(views), views, placed)
      ensures Sharing(old(t), old(newest), legacy, |legacy|, t, newest, placed)
      ensures HeadsFollow(legacy, |legacy|, t, old(heads), heads)
      ensures LatestFollows(legacy, |legacy|, t, old(latest), latest)
      ensures (forall i :: 0 <= i < |legacy| ==> ReadsTexts(t, views, legacy[i]))
         <==> Consistent(old(t.records), t.texts, Arrivals(legacy, |legacy|))
    {
      ghost var was, newestWas, viewsWas, headsWas, latestWas := t, newest, views, heads, latest;
      placed := [];
      RetainedNothing(t.records);
      MigrationStart(t, newest, views, legacy);
      for n := 0 to |legacy|
        invariant Valid() && ViewsReadable()
        invariant Migrating(legacy, n, was, newestWas, viewsWas, t, newest, views, placed)
        invariant HeadsFollow(legacy, n, t, headsWas, heads) && LatestFollows(legacy, n, t, latestWas, latest)
      {
        placed := MigrateNext(legacy, n, was, newestWas, viewsWas, headsWas, latestWas, placed);
      }
      TextsSurviveExactly(was.records, t, views, legacy);
    }

    method MigrateNext(legacy: seq<LegacyView>, n: nat, ghost was: Tables, ghost newestWas: Newest,
                       ghost viewsWas: Views, ghost headsWas: Heads, ghost latestWas: Latests,
                       ghost placed: seq<Newest>) returns (ghost more: seq<Newest>)
      requires Valid() && ViewsReadable() && StreamsOk(was) && n < |legacy|
      requires forall i :: 0 <= i < |legacy| ==> LegacyOk(was.texts, legacy[i])
      requires forall i, j :: 0 <= i < j < |legacy| ==> legacy[i].id != legacy[j].id
      requires Migrating(legacy, n, was, newestWas, viewsWas, t, newest, views, placed)
      requires HeadsFollow(legacy, n, t, headsWas, heads) && LatestFollows(legacy, n, t, latestWas, latest)
      modifies this
      ensures Valid() && ViewsReadable()
      ensures Migrating(legacy, n + 1, was, newestWas, viewsWas, t, newest, views, more)
      ensures HeadsFollow(legacy, n + 1, t, headsWas, heads) && LatestFollows(legacy, n + 1, t, latestWas, latest)
    {
      ghost var before, newestBefore, viewsBefore, headsBefore, latestBefore := t, newest, views, heads, latest;
      MigrateView(legacy[n]);
      more := placed + [newest];
      MigrationStep(legacy, n, was, newestWas, viewsWas, before, newestBefore, viewsBefore, t, newest, views, placed);
      HeadStep(legacy, n, before, newestBefore, t, newest, headsWas, headsBefore, heads, latestWas, latestBefore,
               latest);
    }
  }

  /** A legacy view of one cell. */
  function OneCell(id: ViewId, row: Record): LegacyView {
    LegacyView(id, row.owner, map[CellKind := [row]], None)
  }

  lemma OneCellContent(id: ViewId, row: Record)
    ensures LegacyContent(OneCell(id, row), |KINDS|) == [row]
  {
    var view := OneCell(id, row);
    assert KINDS[0] == MessageKind && KINDS[1] == CellKind && KINDS[2] == SnapshotKind;
    assert LegacyContent(view, 1) == LegacyContent(view, 0) + RowsOf(view, MessageKind) == [];
    assert LegacyContent(view, 2) == LegacyContent(view, 1) + RowsOf(view, CellKind) == [row];
    assert LegacyContent(view, 3) == LegacyContent(view, 2) + RowsOf(view, SnapshotKind) == [row];
  }

  lemma {:induction false} TwoArrivals(row: Record, other: Record)
    requires KeyOf(row) == KeyOf(other)
    ensures var all := Arrivals([OneCell(0, row), OneCell(1, other)], 2);
            FirstText(map[], all, KeyOf(row), |all|) == Some(row.text)
  {
    var legacy := [OneCell(0, row), OneCell(1, other)];
    OneCellContent(0, row);
    OneCellContent(1, other);
    assert Arrivals(legacy, 1) == Arrivals(legacy, 0) + [row];
    assert Arrivals(legacy, 2) == Arrivals(legacy, 1) + [other];
    assert FirstText(map[], Arrivals(legacy, 2), KeyOf(row), 0).None?;
    assert FirstText(map[], Arrivals(legacy, 2), KeyOf(row), 1) == Some(row.text);
  }

  /** What is shown for a view of one cell has the text first seen for its key. */
  lemma {:induction false} OneShown(t: Tables, views: Views, id: ViewId, row: Record, was: map<RecordId, Record>,
                                    all: seq<Record>, text: TextId)
    requires StreamsOk(t) && ReadsBack(t, views, OneCell(id, row)) && Retained(was, t.records, all)
    requires FirstText(was, all, KeyOf(row), |all|) == Some(text)
    ensures var shown := Content(t.streams, views[id].1);
            |shown| == 1 && shown[0] in t.records && t.records[shown[0]] == row.(text := text)
  {
    var shown := Content(t.streams, views[id].1);
    OneCellContent(id, row);
    assert |shown| == |KeysAt(t.records, shown)| == 1;
    assert KeysAt(t.records, shown)[0] == KeysOf([row])[0];
    TextOfRecord(t.records, shown[0]);
  }

  /** Two views with a cell of one source and version but different texts: the second shows the text of the first. */
  method SecondTextIsLost(texts: map<TextId, string>, row: Record, text: TextId) returns (s: Store)
    requires row.source.kind == CellKind && row.text in texts && text in texts
    ensures fresh(s) && s.Valid() && s.t.texts == texts
    ensures 1 in s.views && SpansFit(s.t.streams, s.views[1].1)
    ensures var shown := Content(s.t.streams, s.views[1].1);
            |shown| == 1 && shown[0] in s.t.records && s.t.records[shown[0]] == row
  {
    s := new Store(texts);
    var other := row.(text := text);
    var legacy := [OneCell(0, row), OneCell(1, other)];
    assert LegacyOk(texts, legacy[0]) && LegacyOk(texts, legacy[1]);
    var _ := s.Migrate(legacy);
    TwoArrivals(row, other);
    assert ReadsBack(s.t, s.views, legacy[1]);
    OneShown(s.t, s.views, 1, other, map[], Arrivals(legacy, 2), row.text);
  }
}
