/**
Histories of the session-evidence index: `capture` and `delete_chat` of `backend/external_context.py`
with the table operations of `backend/context_index.py` they use. A view answers every query alike,
whatever is captured, extended, forked or deleted elsewhere, until its own chat is deleted.
*/
module ContextHistory {
  import opened Common
  import opened ContextViews

  /** A frozen view: who may read it, whose evidence it shows, and its spans. */
  datatype View = View(reader: Owner, owner: Owner, spans: seq<Span>)

  /** A stream and how many of its members a capture certified. */
  datatype Target = Target(stream: StreamId, count: nat)

  // ---- what survives ---------------------------------------------------------------------------------

  /** A record of `t` is unchanged in `u`, with its text. */
  predicate SameRecord(t: Tables, u: Tables, r: RecordId) {
    && r in t.records && r in u.records && u.records[r] == t.records[r]
    && t.records[r].text in t.texts && t.records[r].text in u.texts
    && u.texts[t.records[r].text] == t.texts[t.records[r].text]
  }

  /** The views of deleted chats are gone, the others are as they were. */
  predicate Survive(before: map<ViewId, View>, after: map<ViewId, View>, dead: set<Owner>) {
    forall v :: v in before ==>
      if before[v].reader in dead || before[v].owner in dead then v !in after else v in after && after[v] == before[v]
  }

  /** Everything of `t` that does not belong to a chat of `dead` is still in `u`; streams only grew. */
  ghost predicate Keeps(t: Tables, u: Tables, dead: set<Owner>) {
    && (forall s :: KeptStream(t, u, dead, s))
    && (forall r :: KeptRecord(t, u, dead, r))
  }

  predicate KeptStream(t: Tables, u: Tables, dead: set<Owner>, s: StreamId) {
    s in t.streams && t.streams[s].owner !in dead ==>
      && s in u.streams && u.streams[s].owner == t.streams[s].owner && u.streams[s].kind == t.streams[s].kind
      && t.streams[s].members <= u.streams[s].members
  }

  predicate KeptRecord(t: Tables, u: Tables, dead: set<Owner>, r: RecordId) {
    r in t.records && t.records[r].owner !in dead ==> SameRecord(t, u, r)
  }

  lemma KeepsMore(a: Tables, b: Tables, c: Tables, dead: set<Owner>, more: set<Owner>)
    requires Keeps(a, b, dead) && Keeps(b, c, more)
    ensures Keeps(a, c, dead + more)
  {
    forall s ensures KeptStream(a, c, dead + more, s) {
      assert KeptStream(a, b, dead, s) && KeptStream(b, c, more, s);
    }
    forall r ensures KeptRecord(a, c, dead + more, r) {
      assert KeptRecord(a, b, dead, r) && KeptRecord(b, c, more, r);
    }
  }

  lemma KeepsOn(a: Tables, b: Tables, c: Tables)
    requires Keeps(a, b, {}) && Keeps(b, c, {})
    ensures Keeps(a, c, {})
  {
    var none: set<Owner> := {};
    KeepsMore(a, b, c, none, none);
    assert none + none == none;
  }

  lemma SurviveMore(a: map<ViewId, View>, b: map<ViewId, View>, c: map<ViewId, View>, dead: set<Owner>,
                    more: set<Owner>, made: nat)
    requires Survive(a, b, dead) && Survive(b, c, more)
    requires forall v :: v in a ==> v < made
    requires forall v :: v in c && v !in b ==> made <= v
    ensures Survive(a, c, dead + more)
  {}

  /** The matches among unchanged records are unchanged. */
  lemma {:induction false} MatchesStay(t: Tables, u: Tables, q: Query, content: seq<RecordId>, lo: nat, hi: nat)
    requires hi <= |content| && forall k :: 0 <= k < |content| ==> SameRecord(t, u, content[k])
    ensures Matching(t, q, content, lo, hi) == Matching(u, q, content, lo, hi)
    decreases hi
  {
    if lo < hi {
      MatchesStay(t, u, q, content, lo, hi - 1);
      assert SameRecord(t, u, content[hi - 1]);
    }
  }

  lemma {:induction false} SpansStay(t: Tables, u: Tables, owner: Owner, spans: seq<Span>, dead: set<Owner>)
    requires Keeps(t, u, dead) && owner !in dead && SpansFit(t.streams, spans)
    requires forall i :: 0 <= i < |spans| ==> t.streams[spans[i].stream].owner == owner
    ensures SpansFit(u.streams, spans) && Content(u.streams, spans) == Content(t.streams, spans)
    ensures forall i :: 0 <= i < |spans| ==> u.streams[spans[i].stream].owner == owner
  {
    if |spans| > 0 {
      var front, last := spans[..|spans| - 1], spans[|spans| - 1];
      SpansStay(t, u, owner, front, dead);
      assert KeptStream(t, u, dead, last.stream);
      var before, after := t.streams[last.stream].members, u.streams[last.stream].members;
      assert after[..last.count] == before[..last.count];
      forall i | 0 <= i < |spans|
        ensures spans[i].stream in u.streams && spans[i].count <= |u.streams[spans[i].stream].members|
        ensures u.streams[spans[i].stream].owner == owner
      {
        assert KeptStream(t, u, dead, spans[i].stream) && t.streams[spans[i].stream].owner == owner;
      }
    }
  }

  /** A view whose owner lives on shows the same records, and answers every query alike. */
  lemma ViewStays(t: Tables, u: Tables, owner: Owner, spans: seq<Span>, dead: set<Owner>)
    requires Keeps(t, u, dead) && owner !in dead && Readable(t, owner, spans)
    ensures ViewOk(u.streams, owner, spans) && Content(u.streams, spans) == Content(t.streams, spans)
    ensures forall from, q :: Rest(u, spans, from, q) == Rest(t, spans, from, q)
  {
    SpansStay(t, u, owner, spans, dead);
    forall i | 0 <= i < |spans| ensures spans[i].offset == |Content(u.streams, spans[..i])| {
      SpansStay(t, u, owner, spans[..i], dead);
    }
    ContentOwned(t, owner, spans);
    var content := Content(t.streams, spans);
    forall k | 0 <= k < |content| ensures SameRecord(t, u, content[k]) {
      assert content[k] in content && KeptRecord(t, u, dead, content[k]);
    }
    forall from, q ensures Rest(u, spans, from, q) == Rest(t, spans, from, q) {
      MatchesStay(t, u, q, content, from, |content|);
    }
  }

  // ---- what a capture shows ------------------------------------------------------------------------------

  /** The targets a capture may show: certified prefixes of the owner's streams. */
  predicate Certifiable(streams: map<StreamId, Stream>, owner: Owner, targets: seq<Target>) {
    forall i :: 0 <= i < |targets| ==>
      && targets[i].stream in streams && streams[targets[i].stream].owner == owner
      && targets[i].count <= |streams[targets[i].stream].members|
  }

  /** The first `n` certified prefixes, one after another. */
  function Shown(streams: map<StreamId, Stream>, owner: Owner, targets: seq<Target>, n: nat): seq<RecordId>
    requires Certifiable(streams, owner, targets) && n <= |targets|
  {
    if n == 0 then []
    else Shown(streams, owner, targets, n - 1) + streams[targets[n - 1].stream].members[..targets[n - 1].count]
  }

  method LayOut(t: Tables, owner: Owner, targets: seq<Target>) returns (spans: seq<Span>)
    requires Certifiable(t.streams, owner, targets)
    ensures ViewOk(t.streams, owner, spans)
    ensures Content(t.streams, spans) == Shown(t.streams, owner, targets, |targets|)
  {
    spans := [];
    var offset := 0;
    for i := 0 to |targets|
      invariant ViewOk(t.streams, owner, spans)
      invariant Content(t.streams, spans) == Shown(t.streams, owner, targets, i)
      invariant offset == |Content(t.streams, spans)|
    {
      if targets[i].count > 0 {
        SpanAdded(t.streams, owner, spans, targets[i].stream, targets[i].count);
        spans := spans + [Span(targets[i].stream, targets[i].count, offset)];
        offset := offset + targets[i].count;
      }
    }
  }

  /** The tables without a chat's streams and records, and without texts that nothing refers to. */
  function Without(t: Tables, chat: Owner): Tables {
    var streams := map s | s in t.streams && t.streams[s].owner != chat :: t.streams[s];
    var records := map r | r in t.records && t.records[r].owner != chat :: t.records[r];
    var needed := set r | r in records :: records[r].text;
    Tables(records, map x | x in t.texts && x in needed :: t.texts[x], streams)
  }

  lemma WithoutKeeps(t: Tables, chat: Owner)
    requires StreamsOk(t)
    ensures StreamsOk(Without(t, chat)) && Keeps(t, Without(t, chat), {chat})
  {
    var u := Without(t, chat);
    forall r ensures KeptRecord(t, u, {chat}, r) {
      assert r in t.records && t.records[r].owner != chat ==> r in u.records && SameRecord(t, u, r);
    }
    forall s ensures KeptStream(t, u, {chat}, s) {}
    forall s, m | s in u.streams && 0 <= m < |u.streams[s].members|
      ensures Fits(u, u.streams[s], u.streams[s].members[m])
    {
      assert Fits(t, t.streams[s], t.streams[s].members[m]);
    }
  }

  // ---- the tables -------------------------------------------------------------------------------------------

  datatype Operation =
    | Retain(owner: Owner, source: SourceId, version: Version, text: string)
    | Extend(stream: StreamId, record: RecordId)
    | Fork(owner: Owner, kind: Kind, from: Option<Target>)
    | Freeze(reader: Owner, owner: Owner, targets: seq<Target>)
    | Delete(chat: Owner)

  class Index {
    var t: Tables
    var views: map<ViewId, View>
    var madeTexts: nat
    var madeRecords: nat
    var madeStreams: nat
    var madeViews: nat

    ghost predicate Valid()
      reads this
    {
      && StreamsOk(t)
      && (forall x :: x in t.texts ==> x < madeTexts) && (forall r :: r in t.records ==> r < madeRecords)
      && (forall s :: s in t.streams ==> s < madeStreams) && (forall v :: v in views ==> v < madeViews)
      && (forall v :: v in views ==> ViewOk(t.streams, views[v].owner, views[v].spans))
    }

    constructor ()
      ensures Valid() && t == Tables(map[], map[], map[]) && views == map[]
    {
      t, views := Tables(map[], map[], map[]), map[];
      madeTexts, madeRecords, madeStreams, madeViews := 0, 0, 0, 0;
    }

    /** Only the tables changed, and nothing of a living chat was lost. */
    twostate lemma ViewsStay(dead: set<Owner>)
      requires old(Valid()) && Keeps(old(t), t, dead)
      ensures forall v :: v in old(views) && old(views)[v].owner !in dead ==>
                && ViewOk(t.streams, old(views)[v].owner, old(views)[v].spans)
                && Content(t.streams, old(views)[v].spans) == Content(old(t).streams, old(views)[v].spans)
    {
      forall v | v in old(views) && old(views)[v].owner !in dead
        ensures
          && ViewOk(t.streams, old(views)[v].owner, old(views)[v].spans)
          && Content(t.streams, old(views)[v].spans) == Content(old(t).streams, old(views)[v].spans)
      {
        var view := old(views)[v];
        assert Readable(old(t), view.owner, view.spans);
        ViewStays(old(t), t, view.owner, view.spans, dead);
      }
    }

    /** `_index_text`: equal texts share a row. */
    method IndexText(text: string) returns (key: TextId)
      requires Valid()
      modifies this`t, this`madeTexts
      ensures Valid() && key in t.texts && t.texts[key] == text
      ensures t.records == old(t.records) && t.streams == old(t.streams)
      ensures forall x :: x in old(t.texts) ==> x in t.texts && t.texts[x] == old(t.texts)[x]
    {
      if x :| x in t.texts && t.texts[x] == text { return x; }
      key := madeTexts;
      t, madeTexts := t.(texts := t.texts[key := text]), key + 1;
    }

    /**
    `record`: the stored version of a source, whatever its text, or a new record with its text. The text
    is indexed first, as the caller of `record` does.
    */
    method Retain(owner: Owner, source: SourceId, version: Version, text: string) returns (r: RecordId)
      requires Valid()
      modifies this`t, this`madeTexts, this`madeRecords
      ensures Valid() && Keeps(old(t), t, {}) && t.streams == old(t.streams)
      ensures r in t.records && KeyOf(t.records[r]) == Key(owner, source, version)
      ensures r in old(t.records) ==> t.records == old(t.records)
      ensures r !in old(t.records) ==>
                && (forall x :: x in old(t.records) ==> KeyOf(old(t.records)[x]) != Key(owner, source, version))
                && t.records == old(t.records)[r := t.records[r]]
                && t.records[r].text in t.texts && t.texts[t.records[r].text] == text
    {
      var key := IndexText(text);
      if x :| x in t.records && KeyOf(t.records[x]) == Key(owner, source, version) { return x; }
      r := madeRecords;
      t, madeRecords := t.(records := t.records[r := Record(owner, source, version, key)]), r + 1;
    }

    /** `append`. */
    method Extend(s: StreamId, r: RecordId)
      requires Valid() && s in t.streams && Fits(t, t.streams[s], r)
      modifies this`t
      ensures Valid() && Keeps(old(t), t, {}) && t == Appended(old(t), s, r)
    {
      t := Appended(t, s, r);
      ViewsStay({});
    }

    /** `stream(..., fresh=True)`, with a prefix of another stream copied where history diverged. */
    method Fork(owner: Owner, kind: Kind, from: Option<Target>) returns (s: StreamId)
      requires Valid()
      requires from.Some? ==>
                 && from.value.stream in t.streams && from.value.count <= |t.streams[from.value.stream].members|
                 && t.streams[from.value.stream].owner == owner && t.streams[from.value.stream].kind == kind
      modifies this`t, this`madeStreams
      ensures Valid() && Keeps(old(t), t, {}) && s !in old(t.streams)
      ensures t == old(t).(streams := old(t.streams)[s := Stream(owner, kind,
                if from.None? then [] else old(t.streams)[from.value.stream].members[..from.value.count])])
    {
      s := madeStreams;
      var members := if from.None? then [] else t.streams[from.value.stream].members[..from.value.count];
      t, madeStreams := t.(streams := t.streams[s := Stream(owner, kind, members)]), s + 1;
      ViewsStay({});
    }

    /** The span layout of `capture`: every target that has records, each where the one before ends. */
    method Freeze(reader: Owner, owner: Owner, targets: seq<Target>) returns (v: ViewId)
      requires Valid() && Certifiable(t.streams, owner, targets)
      modifies this`views, this`madeViews
      ensures Valid() && v !in old(views) && v in views && views == old(views)[v := views[v]]
      ensures v == old(madeViews) && madeViews == v + 1
      ensures views[v].reader == reader && views[v].owner == owner
      ensures Content(t.streams, views[v].spans) == Shown(t.streams, owner, targets, |targets|)
    {
      var spans := LayOut(t, owner, targets);
      v := madeViews;
      views, madeViews := views[v := View(reader, owner, spans)], v + 1;
    }

    /** `delete_chat`: its views, streams and records, and the texts that no record needs any more. */
    method DeleteChat(chat: Owner)
      requires Valid()
      modifies this`t, this`views
      ensures Valid() && Keeps(old(t), t, {chat})
      ensures views == map v | v in old(views) && old(views)[v].reader != chat && old(views)[v].owner != chat
                         :: old(views)[v]
      ensures forall s :: s in t.streams ==> t.streams[s].owner != chat
      ensures forall r :: r in t.records ==> t.records[r].owner != chat
      ensures forall x :: x in t.texts <==> x in old(t.texts) && exists r :: r in t.records && t.records[r].text == x
    {
      WithoutKeeps(t, chat);
      views := map v | v in views && views[v].reader != chat && views[v].owner != chat :: views[v];
      t := Without(t, chat);
      ViewsStay({chat});
    }

    // ---- histories --------------------------------------------------------------------------------------------

    /** One operation; what is not possible does not happen. */
    method Step(op: Operation) returns (ghost dead: set<Owner>)
      requires Valid()
      modifies this
      ensures Valid() && Keeps(old(t), t, dead) && dead == (if op.Delete? then {op.chat} else {})
      ensures Survive(old(views), views, dead)
      ensures old(madeViews) <= madeViews && forall v :: v in views && v !in old(views) ==> old(madeViews) <= v
    {
      dead := {};
      match op {
        case Retain(owner, source, version, text) => var _ := Retain(owner, source, version, text);
        case Extend(s, r) =>
          if s in t.streams && Fits(t, t.streams[s], r) { Extend(s, r); }
        case Fork(owner, kind, from) =>
          if from.None? || (from.value.stream in t.streams && from.value.count <= |t.streams[from.value.stream].members|
                            && t.streams[from.value.stream].owner == owner
                            && t.streams[from.value.stream].kind == kind) {
            var _ := Fork(owner, kind, from);
          }
        case Freeze(reader, owner, targets) =>
          if Certifiable(t.streams, owner, targets) { var _ := Freeze(reader, owner, targets); }
        case Delete(chat) =>
          DeleteChat(chat);
          dead := {chat};
      }
    }

    /**
    Any history: a view whose chats live on keeps its spans and answers every query with the same rows;
    a view of a deleted chat is gone and never comes back.
    */
    method Run(ops: seq<Operation>) returns (ghost dead: set<Owner>)
      requires Valid()
      modifies this
      ensures Valid() && forall c :: c in dead <==> Delete(c) in ops
      ensures Survive(old(views), views, dead)
      ensures forall v :: v in old(views) && v in views ==>
                  && Content(t.streams, views[v].spans) == Content(old(t).streams, views[v].spans)
                  && forall from, q :: Rest(t, views[v].spans, from, q) == Rest(old(t), views[v].spans, from, q)
    {
      dead := {};
      for i := 0 to |ops|
        invariant Valid() && Keeps(old(t), t, dead) && old(madeViews) <= madeViews
        invariant forall c :: c in dead <==> Delete(c) in ops[..i]
        invariant Survive(old(views), views, dead)
      {
        ghost var before, known := t, views;
        ghost var more := Step(ops[i]);
        KeepsMore(old(t), before, t, dead, more);
        SurviveMore(old(views), known, views, dead, more, old(madeViews));
        assert ops[..i + 1] == ops[..i] + [ops[i]];
        dead := dead + more;
      }
      assert ops[..|ops|] == ops;
      ReadAlike(dead);
    }

    twostate lemma ReadAlike(dead: set<Owner>)
      requires old(Valid()) && Keeps(old(t), t, dead) && Survive(old(views), views, dead)
      ensures forall v :: v in old(views) && v in views ==>
                && SpansFit(old(t).streams, views[v].spans) && SpansFit(t.streams, views[v].spans)
                && Content(t.streams, views[v].spans) == Content(old(t).streams, views[v].spans)
                && forall from, q :: Rest(t, views[v].spans, from, q) == Rest(old(t), views[v].spans, from, q)
    {
      forall v | v in old(views) && v in views
        ensures
          && SpansFit(old(t).streams, views[v].spans) && SpansFit(t.streams, views[v].spans)
          && Content(t.streams, views[v].spans) == Content(old(t).streams, views[v].spans)
          && forall from, q :: Rest(t, views[v].spans, from, q) == Rest(old(t), views[v].spans, from, q)
      {
        var view := old(views)[v];
        assert Readable(old(t), view.owner, view.spans);
        ViewStays(old(t), t, view.owner, view.spans, dead);
      }
    }

    // ---- reading while the tables change ----------------------------------------------------------------------

    /** The rows that complete the answer, as they were in the tables `was`. */
    ghost predicate Remaining(was: Tables, view: View, q: Query, rows: seq<Row>, next: Option<nat>)
      requires SpansFit(was.streams, view.spans)
    {
      if next.None? then rows == Rest(was, view.spans, 0, q)
      else
        && rows + Rest(was, view.spans, next.value, q) == Rest(was, view.spans, 0, q)
        && next.value <= |Content(was.streams, view.spans)|
    }

    lemma RemainingStep(was: Tables, view: View, q: Query, rows: seq<Row>, from: nat, items: seq<Row>,
                        next: Option<nat>)
      requires SpansFit(was.streams, view.spans) && Remaining(was, view, q, rows, Some(from))
      requires next.None? ==> items == Rest(was, view.spans, from, q)
      requires next.Some? ==>
                 && items + Rest(was, view.spans, next.value, q) == Rest(was, view.spans, from, q)
                 && next.value <= |Content(was.streams, view.spans)|
      ensures Remaining(was, view, q, rows + items, next)
    {
      if next.Some? {
        var rest := Rest(was, view.spans, next.value, q);
        assert (rows + items) + rest == rows + (items + rest);
      }
    }

    /** The view is still there and answers as it did. */
    ghost predicate Unchanged(was: Tables, v: ViewId, view: View, q: Query)
      requires SpansFit(was.streams, view.spans)
      reads this`t, this`views
    {
      && v in views && views[v] == view && Readable(t, view.owner, view.spans)
      && Content(t.streams, view.spans) == Content(was.streams, view.spans)
      && forall from :: Rest(t, view.spans, from, q) == Rest(was, view.spans, from, q)
    }

    /** One page of the view, with any complete answer of the text index. */
    method NextPage(v: ViewId, from: nat, limit: int, most: nat, q: Query, indexed: bool, extra: set<TextId>)
      returns (items: seq<Row>, next: Option<nat>)
      requires Valid() && v in views && most >= 1 && q.source.None?
      requires Readable(t, views[v].owner, views[v].spans)
      ensures next.None? ==> items == Rest(t, views[v].spans, from, q)
      ensures next.Some? ==>
                && items + Rest(t, views[v].spans, next.value, q) == Rest(t, views[v].spans, from, q)
                && from < next.value <= |Content(t.streams, views[v].spans)|
    {
      var hits := extra + set x | x in t.texts && Contains(t.texts[x], q.folded);
      items, next := Page(t, views[v].owner, views[v].spans, from, limit, most, q, indexed, hits);
    }

    /** A history between two pages leaves the view as it was, or removes it. */
    method Interrupt(ops: seq<Operation>, ghost was: Tables, v: ViewId, ghost view: View, q: Query)
      requires Valid() && SpansFit(was.streams, view.spans) && Unchanged(was, v, view, q)
      modifies this
      ensures Valid() && (v in views ==> Unchanged(was, v, view, q))
    {
      ghost var before := t;
      var _ := Run(ops);
      if v in views {
        assert forall from :: Rest(t, view.spans, from, q) == Rest(before, view.spans, from, q);
      }
    }

    /**
    `iter_records` and repeated searches while others capture, extend, fork and delete between any two
    pages: the reading ends early only if a chat of the view is deleted; otherwise it yields every matching
    row of the view as it was at the start, once, in order.
    */
    method ReadThroughChanges(v: ViewId, limit: int, most: nat, q: Query, indexed: bool, between: nat -> seq<Operation>)
      returns (all: Option<seq<Row>>)
      requires Valid() && v in views && most >= 1 && q.source.None?
      modifies this
      ensures Valid() && ViewOk(old(t).streams, old(views)[v].owner, old(views)[v].spans)
      ensures if v in views then all == Some(Rest(old(t), old(views)[v].spans, 0, q)) else all.None?
    {
      ghost var was, view := t, views[v];
      var rows, next, n := [], Some(0), 0;
      while next.Some?
        invariant Valid() && SpansFit(was.streams, view.spans) && Unchanged(was, v, view, q)
        invariant Remaining(was, view, q, rows, next)
        decreases if next.None? then 0 else 1 + |Content(was.streams, view.spans)| - next.value
      {
        Interrupt(between(n), was, v, view, q);
        if v !in views { return None; }
        var extra: set<TextId> := *;
        var from, items := next.value, [];
        items, next := NextPage(v, from, limit, most, q, indexed, extra);
        RemainingStep(was, view, q, rows, from, items, next);
        rows, n := rows + items, n + 1;
      }
      return Some(rows);
    }
  }
}
