/**
`capture` of `backend/external_context.py` from the message graph to the frozen view: what
`canonical` certifies is written into the index tables and shown first, and stays shown.
*/
module SessionContext {
  import opened Common
  import opened MessageGraph
  import C = CausalCapture
  import opened ContextViews
  import opened ContextHistory

  /** The records of a list of messages, in order. */
  function Image(recordOf: map<Node, RecordId>, l: seq<Node>, n: nat): seq<RecordId>
    requires n <= |l| && forall i :: 0 <= i < |l| ==> l[i] in recordOf
  {
    if n == 0 then [] else Image(recordOf, l, n - 1) + [recordOf[l[n - 1]]]
  }

  lemma {:induction false} ImageAt(recordOf: map<Node, RecordId>, l: seq<Node>, n: nat)
    requires n <= |l| && forall i :: 0 <= i < |l| ==> l[i] in recordOf
    ensures |Image(recordOf, l, n)| == n && forall k :: 0 <= k < n ==> Image(recordOf, l, n)[k] == recordOf[l[k]]
  {
    if n > 0 {
      ImageAt(recordOf, l, n - 1);
    }
  }

  /** The image of a prefix is the prefix of the image, whatever is recorded later. */
  lemma {:induction false} ImageAgrees(a: map<Node, RecordId>, b: map<Node, RecordId>, l: seq<Node>, m: seq<Node>,
                                       n: nat)
    requires n <= |l| && n <= |m| && l[..n] == m[..n]
    requires forall i :: 0 <= i < |l| ==> l[i] in a
    requires forall i :: 0 <= i < |m| ==> m[i] in b
    requires forall x :: x in a && x in b ==> a[x] == b[x]
    ensures Image(a, l, n) == Image(b, m, n)
  {
    if n > 0 {
      assert l[..n - 1] == l[..n][..n - 1] && m[..n - 1] == m[..n][..n - 1];
      assert l[n - 1] == l[..n][n - 1] == m[..n][n - 1] == m[n - 1];
      ImageAgrees(a, b, l, m, n - 1);
    }
  }

  /** Every recorded message has a record of its own. */
  ghost predicate RecordsOk(t: Tables, owner: Owner, recordOf: map<Node, RecordId>) {
    forall n :: RecordOk(t, owner, recordOf, n)
  }

  predicate RecordOk(t: Tables, owner: Owner, recordOf: map<Node, RecordId>, n: Node) {
    n in recordOf ==>
      && recordOf[n] in t.records && t.records[recordOf[n]].owner == owner
      && t.records[recordOf[n]].source == Source(MessageKind, n)
  }

  /** A stream of the tables shows exactly the messages. */
  predicate Mirrored(t: Tables, owner: Owner, recordOf: map<Node, RecordId>, s: StreamId, nodes: seq<Node>) {
    && (forall i :: 0 <= i < |nodes| ==> nodes[i] in recordOf)
    && s in t.streams && t.streams[s] == Stream(owner, MessageKind, Image(recordOf, nodes, |nodes|))
  }

  /** The tables mirror the certified streams, each in a stream of its own. */
  ghost predicate Mirrors(t: Tables, owner: Owner, recordOf: map<Node, RecordId>, streamOf: map<C.StreamId, StreamId>,
                          streams: map<C.StreamId, seq<Node>>) {
    && RecordsOk(t, owner, recordOf) && streamOf.Keys == streams.Keys
    && (forall s :: MirrorOf(t, owner, recordOf, streamOf, streams, s))
    && (forall a, b :: Apart(streamOf, a, b))
  }

  predicate MirrorOf(t: Tables, owner: Owner, recordOf: map<Node, RecordId>, streamOf: map<C.StreamId, StreamId>,
                     streams: map<C.StreamId, seq<Node>>, s: C.StreamId) {
    s in streams ==> s in streamOf && Mirrored(t, owner, recordOf, streamOf[s], streams[s])
  }

  predicate Apart(streamOf: map<C.StreamId, StreamId>, a: C.StreamId, b: C.StreamId) {
    a in streamOf && b in streamOf && streamOf[a] == streamOf[b] ==> a == b
  }

  /** One more recorded message leaves what is mirrored. */
  lemma MoreRecords(t: Tables, u: Tables, owner: Owner, recordOf: map<Node, RecordId>, more: map<Node, RecordId>,
                    streamOf: map<C.StreamId, StreamId>, streams: map<C.StreamId, seq<Node>>)
    requires Mirrors(t, owner, recordOf, streamOf, streams) && u.streams == t.streams
    requires RecordsOk(u, owner, more) && forall x :: x in recordOf ==> x in more && more[x] == recordOf[x]
    ensures Mirrors(u, owner, more, streamOf, streams)
  {
    forall s ensures MirrorOf(u, owner, more, streamOf, streams, s) {
      assert MirrorOf(t, owner, recordOf, streamOf, streams, s);
      if s in streams {
        ImageAgrees(recordOf, more, streams[s], streams[s], |streams[s]|);
      }
    }
  }

  /** One more message in one stream. */
  lemma MoreMembers(t: Tables, u: Tables, owner: Owner, recordOf: map<Node, RecordId>,
                    streamOf: map<C.StreamId, StreamId>, streams: map<C.StreamId, seq<Node>>, s: C.StreamId, n: Node)
    requires Mirrors(t, owner, recordOf, streamOf, streams) && s in streams && s in streamOf && n in recordOf
    requires streamOf[s] in t.streams
    requires u == Appended(t, streamOf[s], recordOf[n])
    ensures Mirrors(u, owner, recordOf, streamOf, streams[s := streams[s] + [n]])
  {
    var nodes, longer := streams[s], streams[s] + [n];
    assert MirrorOf(t, owner, recordOf, streamOf, streams, s);
    assert longer[..|nodes|] == nodes[..|nodes|];
    ImageAgrees(recordOf, recordOf, nodes, longer, |nodes|);
    var after := streams[s := longer];
    forall x ensures MirrorOf(u, owner, recordOf, streamOf, after, x) {
      assert MirrorOf(t, owner, recordOf, streamOf, streams, x) && Apart(streamOf, x, s);
    }
    forall m ensures RecordOk(u, owner, recordOf, m) {
      assert RecordOk(t, owner, recordOf, m);
    }
  }

  /** A new, empty stream. */
  lemma MoreStreams(t: Tables, u: Tables, owner: Owner, recordOf: map<Node, RecordId>,
                    streamOf: map<C.StreamId, StreamId>, streams: map<C.StreamId, seq<Node>>, s: C.StreamId,
                    sid: StreamId)
    requires Mirrors(t, owner, recordOf, streamOf, streams) && s !in streams && sid !in t.streams
    requires u == t.(streams := t.streams[sid := Stream(owner, MessageKind, [])])
    ensures Mirrors(u, owner, recordOf, streamOf[s := sid], streams[s := []])
  {
    var after, placed := streams[s := []], streamOf[s := sid];
    forall x ensures MirrorOf(u, owner, recordOf, placed, after, x) {
      assert MirrorOf(t, owner, recordOf, streamOf, streams, x);
    }
    forall a, b ensures Apart(placed, a, b) {
      assert Apart(streamOf, a, b) && MirrorOf(t, owner, recordOf, streamOf, streams, a);
      assert MirrorOf(t, owner, recordOf, streamOf, streams, b);
    }
    forall m ensures RecordOk(u, owner, recordOf, m) {
      assert RecordOk(t, owner, recordOf, m);
    }
  }

  lemma {:induction false} ShownGrows(streams: map<StreamId, Stream>, owner: Owner, targets: seq<Target>, i: nat,
                                      n: nat)
    requires Certifiable(streams, owner, targets) && i <= n <= |targets|
    ensures Shown(streams, owner, targets, i) <= Shown(streams, owner, targets, n)
    decreases n
  {
    if i < n {
      ShownGrows(streams, owner, targets, i, n - 1);
    }
  }

  /** A view shows the messages of `l`, record by record, before anything else. */
  ghost predicate Opens(t: Tables, view: View, recordOf: map<Node, RecordId>, l: seq<Node>)
    requires SpansFit(t.streams, view.spans)
  {
    var content := Content(t.streams, view.spans);
    && |l| <= |content|
    && forall k :: 0 <= k < |l| ==> l[k] in recordOf && content[k] == recordOf[l[k]]
  }

  class Service {
    const owner: Owner
    const session: C.SessionIndex
    const index: Index
    /** The record of each message, and the table stream of each certified stream. */
    var recordOf: map<Node, RecordId>
    var streamOf: map<C.StreamId, StreamId>

    ghost predicate Valid()
      reads this, session, index
    {
      session.Valid() && index.Valid() && Mirrors(index.t, owner, recordOf, streamOf, session.streams)
    }

    constructor (owner: Owner, session: C.SessionIndex, index: Index)
      requires session.Valid() && session.streams == map[] && index.Valid()
      ensures Valid() && this.owner == owner && this.session == session && this.index == index
    {
      this.owner, this.session, this.index := owner, session, index;
      recordOf, streamOf := map[], map[];
    }

    /** The record of a message: the one it has, or a new version in the tables. */
    method RecordFor(n: Node, version: Version, text: string, ghost streams: map<C.StreamId, seq<Node>>)
      returns (r: RecordId)
      requires index.Valid() && Mirrors(index.t, owner, recordOf, streamOf, streams)
      modifies this`recordOf, index
      ensures index.Valid() && Mirrors(index.t, owner, recordOf, streamOf, streams) && index.views == old(index.views)
      ensures Keeps(old(index.t), index.t, {}) && index.t.streams == old(index.t.streams)
      ensures n in recordOf && recordOf[n] == r && forall x :: x in old(recordOf) ==>
                x in recordOf && recordOf[x] == old(recordOf)[x]
    {
      if n in recordOf { return recordOf[n]; }
      ghost var before := index.t;
      r := index.Retain(owner, Source(MessageKind, n), version, text);
      var more := recordOf[n := r];
      forall x ensures RecordOk(index.t, owner, more, x) {
        assert RecordOk(before, owner, recordOf, x);
        if x in recordOf {
          assert KeptRecord(before, index.t, {}, recordOf[x]);
        }
      }
      MoreRecords(before, index.t, owner, recordOf, more, streamOf, streams);
      recordOf := more;
    }

    /** Write one certified stream into the tables, from where its mirror ends. */
    method SyncStream(s: C.StreamId, nodes: seq<Node>, versions: Node -> Version, texts: Node -> string,
                      ghost streams: map<C.StreamId, seq<Node>>)
      requires index.Valid() && Mirrors(index.t, owner, recordOf, streamOf, streams)
      requires s in streams ==> streams[s] <= nodes
      modifies this`recordOf, this`streamOf, index
      ensures index.Valid() && Mirrors(index.t, owner, recordOf, streamOf, streams[s := nodes])
      ensures Keeps(old(index.t), index.t, {}) && index.views == old(index.views)
    {
      var k := 0;
      if s in streamOf {
        k := MirroredLength(s, streams);
        SyncRest(s, nodes[k..], versions, texts, streams);
        assert streams[s] + nodes[k..] == nodes;
      } else {
        OpenStream(s, streams);
        ghost var t := index.t;
        SyncRest(s, nodes, versions, texts, streams[s := []]);
        assert [] + nodes == nodes && streams[s := []][s := nodes] == streams[s := nodes];
        KeepsOn(old(index.t), t, index.t);
      }
    }

    method MirroredLength(s: C.StreamId, ghost streams: map<C.StreamId, seq<Node>>) returns (k: nat)
      requires Mirrors(index.t, owner, recordOf, streamOf, streams) && s in streams
      ensures k == |streams[s]|
    {
      assert MirrorOf(index.t, owner, recordOf, streamOf, streams, s);
      ImageAt(recordOf, streams[s], |streams[s]|);
      k := |index.t.streams[streamOf[s]].members|;
    }

    method OpenStream(s: C.StreamId, ghost streams: map<C.StreamId, seq<Node>>)
      requires index.Valid() && Mirrors(index.t, owner, recordOf, streamOf, streams) && s !in streams
      modifies this`streamOf, index
      ensures index.Valid() && Mirrors(index.t, owner, recordOf, streamOf, streams[s := []])
      ensures Keeps(old(index.t), index.t, {}) && index.views == old(index.views)
    {
      ghost var before := index.t;
      var sid := index.Fork(owner, MessageKind, None);
      MoreStreams(before, index.t, owner, recordOf, streamOf, streams, s, sid);
      streamOf := streamOf[s := sid];
    }

    /** Append further messages to one mirrored stream. */
    method SyncRest(s: C.StreamId, rest: seq<Node>, versions: Node -> Version, texts: Node -> string,
                    ghost streams: map<C.StreamId, seq<Node>>)
      requires index.Valid() && Mirrors(index.t, owner, recordOf, streamOf, streams) && s in streams
      modifies this`recordOf, index
      ensures index.Valid() && Mirrors(index.t, owner, recordOf, streamOf, streams[s := streams[s] + rest])
      ensures Keeps(old(index.t), index.t, {}) && index.views == old(index.views)
      decreases |rest|
    {
      if |rest| == 0 {
        assert streams[s] + rest == streams[s];
        assert streams[s := streams[s]] == streams;
        return;
      }
      ghost var more := SyncNode(s, rest[0], versions(rest[0]), texts(rest[0]), streams);
      ghost var t := index.t;
      SyncRest(s, rest[1..], versions, texts, more);
      KeepsOn(old(index.t), t, index.t);
      assert streams[s] + rest == more[s] + rest[1..];
      assert more[s := more[s] + rest[1..]] == streams[s := streams[s] + rest];
    }

    method SyncNode(s: C.StreamId, n: Node, version: Version, text: string, ghost streams: map<C.StreamId, seq<Node>>)
      returns (ghost more: map<C.StreamId, seq<Node>>)
      requires index.Valid() && Mirrors(index.t, owner, recordOf, streamOf, streams) && s in streams
      modifies this`recordOf, index
      ensures more == streams[s := streams[s] + [n]]
      ensures index.Valid() && Mirrors(index.t, owner, recordOf, streamOf, more)
      ensures Keeps(old(index.t), index.t, {}) && index.views == old(index.views)
    {
      var r := RecordFor(n, version, text, streams);
      ghost var before := index.t;
      assert MirrorOf(before, owner, recordOf, streamOf, streams, s) && RecordOk(before, owner, recordOf, n);
      index.Extend(streamOf[s], r);
      MoreMembers(before, index.t, owner, recordOf, streamOf, streams, s, n);
      KeepsOn(old(index.t), before, index.t);
      more := streams[s := streams[s] + [n]];
    }

    /** Write all certified streams into the tables. */
    method Sync(versions: Node -> Version, texts: Node -> string, ghost before: map<C.StreamId, seq<Node>>)
      requires index.Valid() && Mirrors(index.t, owner, recordOf, streamOf, before)
      requires forall s :: s in before ==> s in session.streams && before[s] <= session.streams[s]
      modifies this`recordOf, this`streamOf, index
      ensures index.Valid() && Mirrors(index.t, owner, recordOf, streamOf, session.streams)
      ensures Keeps(old(index.t), index.t, {}) && index.views == old(index.views)
    {
      var todo := session.streams.Keys;
      ghost var now := before;
      while todo != {}
        invariant todo <= session.streams.Keys && now.Keys <= session.streams.Keys
        invariant forall s :: s in session.streams && s !in todo ==> s in now && now[s] == session.streams[s]
        invariant forall s :: s in now ==> now[s] <= session.streams[s]
        invariant index.Valid() && Mirrors(index.t, owner, recordOf, streamOf, now)
        invariant Keeps(old(index.t), index.t, {}) && index.views == old(index.views)
        decreases todo
      {
        var s :| s in todo;
        ghost var t := index.t;
        SyncStream(s, session.streams[s], versions, texts, now);
        KeepsOn(old(index.t), t, index.t);
        todo, now := todo - {s}, now[s := session.streams[s]];
      }
      assert now == session.streams;
    }

    /**
    `capture`: it publishes a view exactly when the head's ancestry is complete and acyclic. The view then
    begins with the head's ancestors, each once and parents first, record by record, and goes on with the
    certified cells and snapshots; no other view changes.
    */
    method Capture(conversation: C.Conversation, node: Option<Node>, reader: Owner, others: seq<Target>,
                   versions: Node -> Version, texts: Node -> string)
      returns (v: Option<ViewId>, ghost l: seq<Node>)
      requires Valid() && Certifiable(index.t.streams, owner, others)
      modifies this`recordOf, this`streamOf, session`streams, session`made, session`heads, session`latest, index
      ensures Valid() && Keeps(old(index.t), index.t, {}) && (v.Some? <==> Sound(session.graph, node))
      ensures v.None? ==> index.views == old(index.views)
      ensures v.Some? ==>
                && v.value !in old(index.views) && v.value in index.views
                && index.views == old(index.views)[v.value := index.views[v.value]]
                && index.views[v.value].reader == reader && index.views[v.value].owner == owner
                && Certified(session.graph, node, l) && Opens(index.t, index.views[v.value], recordOf, l)
    {
      l := [];
      var r := Certify(conversation, node, versions, texts);
      if r.None? { return None, l; }
      OthersStay(old(index.t), index.t, owner, others);
      l := session.streams[r.value.0][..r.value.1];
      var view := Publish(r.value.0, r.value.1, reader, others);
      v := Some(view);
    }

    /** `canonical`, and its streams in the tables. */
    method Certify(conversation: C.Conversation, node: Option<Node>, versions: Node -> Version, texts: Node -> string)
      returns (r: Option<(C.StreamId, nat)>)
      requires Valid()
      modifies this`recordOf, this`streamOf, session`streams, session`made, session`heads, session`latest, index
      ensures Valid() && Keeps(old(index.t), index.t, {}) && index.views == old(index.views)
      ensures r.Some? <==> Sound(session.graph, node)
      ensures r.Some? ==>
                && r.value.0 in session.streams && r.value.1 <= |session.streams[r.value.0]|
                && Certified(session.graph, node, session.streams[r.value.0][..r.value.1])
    {
      ghost var before := session.streams;
      r := session.Capture(conversation, node);
      Sync(versions, texts, before);
    }

    /** The layout of the view: the certified prefix first. */
    method Publish(stream: C.StreamId, count: nat, reader: Owner, others: seq<Target>) returns (v: ViewId)
      requires Valid() && stream in session.streams && count <= |session.streams[stream]|
      requires Certifiable(index.t.streams, owner, others)
      modifies index`views, index`madeViews
      ensures Valid() && v !in old(index.views) && v in index.views
      ensures index.views == old(index.views)[v := index.views[v]]
      ensures index.views[v].reader == reader && index.views[v].owner == owner
      ensures Opens(index.t, index.views[v], recordOf, session.streams[stream][..count])
    {
      assert MirrorOf(index.t, owner, recordOf, streamOf, session.streams, stream);
      PrefixFirst(index.t, owner, recordOf, streamOf[stream], session.streams[stream], count, others);
      v := index.Freeze(reader, owner, [Target(streamOf[stream], count)] + others);
    }

    /** What others do to the tables afterwards, and messages that arrive, leave the view and its certificate. */
    method CaptureForEver(conversation: C.Conversation, node: Option<Node>, reader: Owner, others: seq<Target>,
                          versions: Node -> Version, texts: Node -> string, later: seq<Operation>, more: Graph)
      returns (v: Option<ViewId>, ghost l: seq<Node>)
      requires Valid() && Certifiable(index.t.streams, owner, others) && more.Keys !! session.graph.Keys
      modifies this`recordOf, this`streamOf, session, index
      ensures session.graph == old(session.graph) + more && (v.Some? <==> Sound(old(session.graph), node))
      ensures v.Some? && Delete(owner) !in later && Delete(reader) !in later ==>
                && v.value in index.views && SpansFit(index.t.streams, index.views[v.value].spans)
                && Certified(session.graph, node, l) && Opens(index.t, index.views[v.value], recordOf, l)
    {
      v, l := Capture(conversation, node, reader, others, versions, texts);
      var dead := index.Run(later);
      session.Receive(more);
      if v.Some? {
        CertifiedStays(old(session.graph), session.graph, node, l);
      }
    }
  }

  /** A layout that begins with a certified prefix shows it first. */
  lemma PrefixFirst(t: Tables, owner: Owner, recordOf: map<Node, RecordId>, s: StreamId, nodes: seq<Node>, count: nat,
                    others: seq<Target>)
    requires Mirrored(t, owner, recordOf, s, nodes) && count <= |nodes| && Certifiable(t.streams, owner, others)
    ensures var targets := [Target(s, count)] + others;
            && Certifiable(t.streams, owner, targets)
            && var shown := Shown(t.streams, owner, targets, |targets|);
               count <= |shown| && forall k :: 0 <= k < count ==> shown[k] == recordOf[nodes[k]]
  {
    var targets := [Target(s, count)] + others;
    ImageAt(recordOf, nodes, |nodes|);
    forall i | 0 <= i < |targets|
      ensures targets[i].stream in t.streams && t.streams[targets[i].stream].owner == owner
      ensures targets[i].count <= |t.streams[targets[i].stream].members|
    {
      assert i > 0 ==> targets[i] == others[i - 1];
    }
    ShownGrows(t.streams, owner, targets, 1, |targets|);
    var first := t.streams[s].members[..count];
    assert Shown(t.streams, owner, targets, 1) == Shown(t.streams, owner, targets, 0) + first == first;
  }

  lemma OthersStay(t: Tables, u: Tables, owner: Owner, others: seq<Target>)
    requires Keeps(t, u, {}) && Certifiable(t.streams, owner, others)
    ensures Certifiable(u.streams, owner, others)
  {
    forall i | 0 <= i < |others|
      ensures others[i].stream in u.streams && u.streams[others[i].stream].owner == owner
      ensures others[i].count <= |u.streams[others[i].stream].members|
    {
      assert others[i].stream in t.streams && KeptStream(t, u, {}, others[i].stream);
    }
  }
}
