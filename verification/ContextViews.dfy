/**
Frozen views over append-only streams: `rows`, `_spans` and `span` of `backend/context_index.py` and the
paging of `backend/external_context.py`.
*/
module ContextViews {
  import opened Common

  type Owner = nat
  type RecordId = nat
  type TextId = nat
  type StreamId = nat
  type ViewId = nat

  datatype Kind = MessageKind | CellKind | SnapshotKind

  /** What a record describes: a message, a cell or a snapshot, by number. */
  datatype SourceId = Source(kind: Kind, id: nat)

  /** The hash of a record's descriptor. */
  type Version = nat

  /** One version of a retained observation; its folded search text is shared between equal texts. */
  datatype Record = Record(owner: Owner, source: SourceId, version: Version, text: TextId)

  /** The unique key of a record: its owner, its source and the version of its descriptor. */
  datatype Key = Key(owner: Owner, source: SourceId, version: Version)

  function KeyOf(record: Record): Key {
    Key(record.owner, record.source, record.version)
  }

  datatype Stream = Stream(owner: Owner, kind: Kind, members: seq<RecordId>)

  /** The first `count` members of a stream, shown from ordinal `offset` on. */
  datatype Span = Span(stream: StreamId, count: nat, offset: nat)

  datatype Tables = Tables(records: map<RecordId, Record>, texts: map<TextId, string>, streams: map<StreamId, Stream>)

  datatype Row = Row(ordinal: nat, record: RecordId)

  /** A kind filter, a folded phrase and a source; an empty phrase matches every record. */
  datatype Query = Query(kind: Option<Kind>, folded: string, source: Option<SourceId>)

  // ---- the reference answer --------------------------------------------------------------------

  predicate OccursAt(text: string, phrase: string, i: nat) {
    i + |phrase| <= |text| && text[i..i + |phrase|] == phrase
  }

  /** `instr(text, phrase) > 0`. */
  predicate Contains(text: string, phrase: string) {
    exists i: nat | i <= |text| :: OccursAt(text, phrase, i)
  }

  /** What a view shows: the frozen prefixes one after another. */
  ghost function Content(streams: map<StreamId, Stream>, spans: seq<Span>): seq<RecordId>
    requires SpansFit(streams, spans)
  {
    if spans == [] then []
    else
      var last := spans[|spans| - 1];
      Content(streams, spans[..|spans| - 1]) + streams[last.stream].members[..last.count]
  }

  ghost predicate SpansFit(streams: map<StreamId, Stream>, spans: seq<Span>) {
    forall i :: 0 <= i < |spans| ==> spans[i].stream in streams && spans[i].count <= |streams[spans[i].stream].members|
  }

  /** The folded text of a record contains the phrase. */
  predicate TextHit(t: Tables, folded: string, r: RecordId) {
    r in t.records && (folded != "" ==> t.records[r].text in t.texts && Contains(t.texts[t.records[r].text], folded))
  }

  /** Text and source fit. */
  predicate Hit(t: Tables, q: Query, r: RecordId) {
    TextHit(t, q.folded, r) && (q.source.Some? ==> t.records[r].source == q.source.value)
  }

  predicate Matches(t: Tables, q: Query, r: RecordId) {
    Hit(t, q, r) && (q.kind.Some? ==> t.records[r].source.kind == q.kind.value)
  }

  /** The matching rows with ordinals from `lo` up to `hi`, in ordinal order. */
  ghost function Matching(t: Tables, q: Query,
                          content: seq<RecordId>, lo: nat, hi: nat): seq<Row>
    requires hi <= |content|
    decreases hi
  {
    if hi <= lo then []
    else
      var row := if Matches(t, q, content[hi - 1]) then [Row(hi - 1, content[hi - 1])] else [];
      Matching(t, q, content, lo, hi - 1) + row
  }

  function Take<T>(n: nat, s: seq<T>): seq<T> {
    if n < |s| then s[..n] else s
  }

  lemma {:induction false} MatchingSplits(t: Tables, q: Query,
                                          content: seq<RecordId>, lo: nat, mid: nat, hi: nat)
    requires lo <= mid <= hi <= |content|
    ensures Matching(t, q, content, lo, hi)
         == Matching(t, q, content, lo, mid) + Matching(t, q, content, mid, hi)
    decreases hi
  {
    if mid < hi {
      MatchingSplits(t, q, content, lo, mid, hi - 1);
    }
  }

  lemma {:induction false} NothingMatches(t: Tables, q: Query,
                                          content: seq<RecordId>, lo: nat, hi: nat)
    requires hi <= |content|
    requires forall k :: lo <= k < hi ==> !Matches(t, q, content[k])
    ensures Matching(t, q, content, lo, hi) == []
    decreases hi
  {
    if lo < hi {
      NothingMatches(t, q, content, lo, hi - 1);
    }
  }

  lemma MatchingStep(t: Tables, q: Query,
                     content: seq<RecordId>, lo: nat, hi: nat)
    requires lo <= hi < |content|
    ensures Matching(t, q, content, lo, hi + 1)
         == Matching(t, q, content, lo, hi)
          + if Matches(t, q, content[hi]) then [Row(hi, content[hi])] else []
  {
  }

  lemma {:induction false} CutMatching(t: Tables, q: Query,
                                       content: seq<RecordId>, lo: nat, hi: nat, n: nat)
    requires hi <= |content| && 1 <= n <= |Matching(t, q, content, lo, hi)|
    ensures var rows := Matching(t, q, content, lo, hi);
            && lo <= rows[n - 1].ordinal < hi
            && rows == rows[..n] + Matching(t, q, content, rows[n - 1].ordinal + 1, hi)
    decreases hi
  {
    var rows := Matching(t, q, content, lo, hi);
    var before := Matching(t, q, content, lo, hi - 1);
    if n <= |before| {
      CutMatching(t, q, content, lo, hi - 1, n);
    } else {
      assert rows[..n] == rows;
    }
  }

  /** With an empty query the rows are the whole content, in order. */
  lemma {:induction false} EverythingMatches(t: Tables, content: seq<RecordId>, hi: nat)
    requires hi <= |content| && forall k :: 0 <= k < hi ==> content[k] in t.records
    ensures var rows := Matching(t, Query(None, "", None), content, 0, hi);
            |rows| == hi && forall k :: 0 <= k < hi ==> rows[k] == Row(k, content[k])
    decreases hi
  {
    if hi > 0 {
      EverythingMatches(t, content, hi - 1);
    }
  }

  /** Every span starts where the ones before it end. */
  ghost predicate Consecutive(streams: map<StreamId, Stream>, spans: seq<Span>)
    requires SpansFit(streams, spans)
  {
    forall i :: 0 <= i < |spans| ==> spans[i].offset == |Content(streams, spans[..i])|
  }

  lemma {:induction false} ContentPrefix(streams: map<StreamId, Stream>, spans: seq<Span>, i: nat)
    requires SpansFit(streams, spans) && i <= |spans|
    ensures Content(streams, spans[..i]) <= Content(streams, spans)
  {
    if i < |spans| {
      assert spans[..|spans| - 1][..i] == spans[..i];
      ContentPrefix(streams, spans[..|spans| - 1], i);
    } else {
      assert spans[..i] == spans;
    }
  }

  /** A span shows its records at its offset, and the next one begins behind them. */
  lemma SpanInContent(streams: map<StreamId, Stream>, spans: seq<Span>, i: nat)
    requires SpansFit(streams, spans) && Consecutive(streams, spans) && i < |spans|
    ensures spans[i].offset + spans[i].count <= |Content(streams, spans)|
    ensures Content(streams, spans)[spans[i].offset..spans[i].offset + spans[i].count]
         == streams[spans[i].stream].members[..spans[i].count]
    ensures |Content(streams, spans[..i + 1])| == spans[i].offset + spans[i].count
  {
    ContentPrefix(streams, spans, i + 1);
    assert spans[..i + 1][..i] == spans[..i];
    var upto := Content(streams, spans[..i + 1]);
    assert upto == Content(streams, spans[..i]) + streams[spans[i].stream].members[..spans[i].count];
    assert upto[spans[i].offset..] == streams[spans[i].stream].members[..spans[i].count];
    assert Content(streams, spans)[..|upto|] == upto;
  }

  /** Streams that only grow leave every frozen view as it was. */
  lemma {:induction false} ContentStays(before: map<StreamId, Stream>, after: map<StreamId, Stream>, spans: seq<Span>)
    requires SpansFit(before, spans)
    requires forall s :: s in before ==> s in after && before[s].members <= after[s].members
    ensures SpansFit(after, spans) && Content(after, spans) == Content(before, spans)
  {
    if spans != [] {
      ContentStays(before, after, spans[..|spans| - 1]);
    }
  }

  /** The rows up to the ordinal `hi`, cut at the limit. */
  ghost function Found(t: Tables, q: Query, limit: nat,
                       content: seq<RecordId>, after: nat, hi: nat): seq<Row>
    requires hi <= |content|
  {
    Take(limit, Matching(t, q, content, after, hi))
  }

  /** Looking at one more record extends the rows found, unless the limit is reached. */
  lemma FoundStep(t: Tables, q: Query, limit: nat,
                  content: seq<RecordId>, after: nat, hi: nat)
    requires after <= hi < |content|
    ensures var found := Found(t, q, limit, content, after, hi);
            var row := if Matches(t, q, content[hi]) && |found| < limit then [Row(hi, content[hi])] else [];
            Found(t, q, limit, content, after, hi + 1) == found + row
  {
    MatchingStep(t, q, content, after, hi);
  }

  /** A stretch without matches adds no rows. */
  lemma FoundSkip(t: Tables, q: Query, limit: nat,
                  content: seq<RecordId>, after: nat, lo: nat, hi: nat)
    requires lo <= hi <= |content|
    requires forall k :: lo <= k < hi && after <= k ==> !Matches(t, q, content[k])
    ensures Found(t, q, limit, content, after, hi) == Found(t, q, limit, content, after, lo)
  {
    if after <= lo {
      MatchingSplits(t, q, content, after, lo, hi);
      NothingMatches(t, q, content, lo, hi);
    } else if after < hi {
      NothingMatches(t, q, content, after, hi);
    }
  }

  /** Once the limit is reached, later rows do not count. */
  lemma FoundFull(t: Tables, q: Query, limit: nat,
                  content: seq<RecordId>, after: nat, lo: nat, hi: nat)
    requires lo <= hi <= |content| && |Found(t, q, limit, content, after, lo)| >= limit
    ensures Found(t, q, limit, content, after, hi) == Found(t, q, limit, content, after, lo)
  {
    if after <= lo {
      MatchingSplits(t, q, content, after, lo, hi);
    }
  }

  /** The content shows the prefix of a stream at the span's offset; its records have the stream's owner and kind. */
  ghost predicate Shows(t: Tables, st: Stream, sp: Span, content: seq<RecordId>) {
    && sp.count <= |st.members| && sp.offset + sp.count <= |content|
    && forall m :: 0 <= m < sp.count ==>
         && content[sp.offset + m] == st.members[m] && st.members[m] in t.records
         && t.records[st.members[m]].source.kind == st.kind && t.records[st.members[m]].owner == st.owner
  }

  /** A span before the cursor or of another kind has no matches. */
  lemma SpanSkipped(t: Tables, q: Query, limit: nat,
                    st: Stream, sp: Span, after: nat, content: seq<RecordId>)
    requires Shows(t, st, sp, content)
    requires sp.offset + sp.count <= after || (q.kind.Some? && q.kind.value != st.kind)
    ensures Found(t, q, limit, content, after, sp.offset + sp.count)
         == Found(t, q, limit, content, after, sp.offset)
  {
    forall k | sp.offset <= k < sp.offset + sp.count && after <= k
      ensures !Matches(t, q, content[k])
    {
      assert content[sp.offset + (k - sp.offset)] == st.members[k - sp.offset];
    }
    FoundSkip(t, q, limit, content, after, sp.offset, sp.offset + sp.count);
  }

  /** One `SELECT` of the ordered scan: the members of one span from the cursor on, up to the limit. */
  method ScanSpan(t: Tables, q: Query, limit: nat,
                  st: Stream, sp: Span, after: nat, found: seq<Row>, ghost content: seq<RecordId>)
    returns (result: seq<Row>)
    requires Shows(t, st, sp, content) && (q.kind.Some? ==> q.kind.value == st.kind)
    requires found == Found(t, q, limit, content, after, sp.offset)
    ensures result == Found(t, q, limit, content, after, sp.offset + sp.count)
  {
    var lo := if after > sp.offset then after - sp.offset else 0;
    result := found;
    if lo >= sp.count { return; }
    for m := lo to sp.count
      invariant result == Found(t, q, limit, content, after, sp.offset + m)
    {
      FoundStep(t, q, limit, content, after, sp.offset + m);
      assert content[sp.offset + m] == st.members[m];
      if |result| < limit && Hit(t, q, st.members[m]) {
        result := result + [Row(sp.offset + m, st.members[m])];
      }
    }
  }

  /** `LIMIT n`: some `n` rows, or all of them if there are fewer. */
  method Limited<T(==)>(s: set<T>, n: nat) returns (t: set<T>)
    ensures t <= s && |t| <= n && (|t| < n ==> t == s)
  {
    var left := s;
    t := {};
    while |t| < n && left != {}
      invariant left <= s && t == s - left && |t| <= n
      decreases left
    {
      var x :| x in left;
      left, t := left - {x}, t + {x};
    }
  }

  /** The first matching row opens the list of matching rows. */
  lemma {:induction false} FirstMatch(t: Tables, q: Query,
                                      content: seq<RecordId>, lo: nat, k: nat)
    requires lo <= k < |content| && Matches(t, q, content[k])
    requires forall j :: lo <= j < k ==> !Matches(t, q, content[j])
    ensures Matching(t, q, content, lo, |content|)
         == [Row(k, content[k])] + Matching(t, q, content, k + 1, |content|)
  {
    MatchingSplits(t, q, content, lo, k, |content|);
    MatchingSplits(t, q, content, k, k + 1, |content|);
    NothingMatches(t, q, content, lo, k);
    MatchingStep(t, q, content, k, k);
  }

  /** The ordinals from `lo` up to `hi` whose records match. */
  ghost function Ordinals(t: Tables, q: Query,
                          content: seq<RecordId>, lo: nat, hi: nat): set<nat>
    requires hi <= |content|
  {
    set k: nat | lo <= k < hi && Matches(t, q, content[k])
  }

  /** The joined rows are the matching ordinals with the records shown there. */
  ghost predicate Joins(t: Tables, q: Query,
                        content: seq<RecordId>, lo: nat, hi: nat, joined: map<nat, RecordId>)
    requires hi <= |content|
  {
    && joined.Keys == Ordinals(t, q, content, lo, hi)
    && forall k :: k in joined ==> joined[k] == content[k]
  }

  method Least(s: set<nat>) returns (k: nat)
    requires s != {}
    ensures k in s && forall j: nat :: j in s ==> k <= j
  {
    k :| k in s;
    var left := s - {k};
    while left != {}
      invariant left <= s && k in s && forall j: nat :: j in s && j !in left ==> k <= j
      decreases left
    {
      var j: nat :| j in left;
      left := left - {j};
      if j < k { k := j; }
    }
  }

  /** `ORDER BY ordinal LIMIT ?` over the joined candidate rows. */
  method InOrder(t: Tables, q: Query, limit: nat,
                 joined: map<nat, RecordId>, after: nat, ghost content: seq<RecordId>) returns (result: seq<Row>)
    requires Joins(t, q, content, after, |content|, joined)
    ensures result == Found(t, q, limit, content, after, |content|)
  {
    var left, lo: nat := joined.Keys, after;
    result := [];
    while |result| < limit && left != {}
      invariant left == Ordinals(t, q, content, lo, |content|) && left <= joined.Keys && after <= lo
      invariant |result| <= limit
      invariant result + Matching(t, q, content, lo, |content|)
             == Matching(t, q, content, after, |content|)
      decreases left
    {
      var k := Least(left);
      assert k < |content|;
      forall j: nat | lo <= j < k
        ensures !Matches(t, q, content[j])
      {
        assert j in left ==> k <= j;
      }
      FirstMatch(t, q, content, lo, k);
      result, left, lo := result + [Row(k, joined[k])], left - {k}, k + 1;
      assert left == Ordinals(t, q, content, lo, |content|);
    }
    if left == {} {
      forall k: nat | lo <= k < |content|
        ensures !Matches(t, q, content[k])
      {
        assert k !in left;
      }
      NothingMatches(t, q, content, lo, |content|);
    }
  }

  /** The candidates are the owner's records that fit. */
  ghost predicate AreCandidates(t: Tables, q: Query, owner: Owner, candidates: set<RecordId>) {
    forall r :: r in candidates <==> Hit(t, q, r) && t.records[r].owner == owner
  }

  /** Join the candidates with one span. */
  method JoinSpan(t: Tables, q: Query, st: Stream, sp: Span,
                  after: nat, candidates: set<RecordId>, joined: map<nat, RecordId>, ghost content: seq<RecordId>)
    returns (joined': map<nat, RecordId>)
    requires Shows(t, st, sp, content) && AreCandidates(t, q, st.owner, candidates)
    requires Joins(t, q, content, after, sp.offset, joined)
    ensures Joins(t, q, content, after, sp.offset + sp.count, joined')
  {
    joined' := joined;
    for m := 0 to sp.count
      invariant Joins(t, q, content, after, sp.offset + m, joined')
    {
      var r := st.members[m];
      assert content[sp.offset + m] == r;
      if sp.offset + m >= after && r in candidates && (q.kind.None? || t.records[r].source.kind == q.kind.value) {
        joined' := joined'[sp.offset + m := r];
      }
    }
  }

  /**
  The two bounded probes: at most 512 t.texts from the text index, at most 128 t.records of the owner.
  The one assumption: uncut, the text index returns every text that contains the phrase.
  */
  method Probe(t: Tables, q: Query, owner: Owner, hits: set<TextId>) returns (c: Option<set<RecordId>>)
    requires q.folded != "" && q.source.None?
    requires forall x :: x in t.texts && Contains(t.texts[x], q.folded) ==> x in hits
    ensures c.Some? ==> |c.value| <= 128 && AreCandidates(t, q, owner, c.value)
  {
    var found := Limited(hits, 513);
    if |found| > 512 { return None; }
    var all := set r | r in t.records && t.records[r].text in found && t.records[r].owner == owner
                       && TextHit(t, q.folded, r);
    var trial := Limited(all, 129);
    if |trial| > 128 { return None; }
    return Some(trial);
  }

  /** Streams hold stored records of their own owner and kind. */
  ghost predicate StreamsOk(t: Tables) {
    && (forall r :: r in t.records ==> t.records[r].text in t.texts)
    && (forall s, m :: s in t.streams && 0 <= m < |t.streams[s].members| ==>
          Fits(t, t.streams[s], t.streams[s].members[m]))
  }

  /** The record may stand in the stream. */
  predicate Fits(t: Tables, st: Stream, r: RecordId) {
    r in t.records && t.records[r].owner == st.owner && t.records[r].source.kind == st.kind
  }

  /** `append`: the stream with one more member. */
  function Appended(t: Tables, s: StreamId, r: RecordId): Tables
    requires s in t.streams
  {
    t.(streams := t.streams[s := t.streams[s].(members := t.streams[s].members + [r])])
  }

  /** A view shows prefixes of its owner's streams, one after another. */
  ghost predicate ViewOk(streams: map<StreamId, Stream>, owner: Owner, spans: seq<Span>) {
    && SpansFit(streams, spans) && Consecutive(streams, spans)
    && forall i :: 0 <= i < |spans| ==> streams[spans[i].stream].owner == owner
  }

  /** Every stream is still there and has only been appended to. */
  ghost predicate Grown(before: map<StreamId, Stream>, after: map<StreamId, Stream>) {
    forall s :: GrownAt(before, after, s)
  }

  predicate GrownAt(before: map<StreamId, Stream>, after: map<StreamId, Stream>, s: StreamId) {
    s in before ==>
      && s in after && after[s].owner == before[s].owner && after[s].kind == before[s].kind
      && before[s].members <= after[s].members
  }

  lemma ViewGrows(before: map<StreamId, Stream>, after: map<StreamId, Stream>, owner: Owner, spans: seq<Span>)
    requires Grown(before, after) && ViewOk(before, owner, spans)
    ensures ViewOk(after, owner, spans) && Content(after, spans) == Content(before, spans)
  {
    forall s | s in before ensures s in after && before[s].members <= after[s].members {
      assert GrownAt(before, after, s);
    }
    ContentStays(before, after, spans);
    forall i | 0 <= i < |spans| ensures after[spans[i].stream].owner == owner {
      assert GrownAt(before, after, spans[i].stream);
    }
    forall i | 0 <= i < |spans|
      ensures spans[i].offset == |Content(after, spans[..i])|
    {
      ContentStays(before, after, spans[..i]);
    }
  }

  /** A span at the end extends what a view shows. */
  lemma SpanAdded(streams: map<StreamId, Stream>, owner: Owner, spans: seq<Span>, s: StreamId, count: nat)
    requires ViewOk(streams, owner, spans)
    requires s in streams && streams[s].owner == owner && count <= |streams[s].members|
    ensures var more := spans + [Span(s, count, |Content(streams, spans)|)];
            && ViewOk(streams, owner, more)
            && Content(streams, more) == Content(streams, spans) + streams[s].members[..count]
  {
    var more := spans + [Span(s, count, |Content(streams, spans)|)];
    assert more[..|spans|] == spans;
    forall i | 0 <= i < |more| ensures more[i].offset == |Content(streams, more[..i])| {
      assert i < |spans| ==> more[..i] == spans[..i];
    }
  }

  // ---- queries -----------------------------------------------------------------------------------

  /** The tables are sound and the spans form a view of the owner. */
  ghost predicate Readable(t: Tables, owner: Owner, spans: seq<Span>) {
    StreamsOk(t) && ViewOk(t.streams, owner, spans)
  }

  /** The rows a query on a view is meant to return. */
  ghost function Answer(t: Tables, spans: seq<Span>, after: nat, limit: nat, q: Query): seq<Row>
    requires SpansFit(t.streams, spans)
  {
    Found(t, q, limit, Content(t.streams, spans), after, |Content(t.streams, spans)|)
  }

  /** The `i`-th span, or the end of the content, is at ordinal `hi`. */
  ghost predicate Starts(spans: seq<Span>, i: nat, total: nat, hi: nat) {
    i <= |spans| && hi == if i < |spans| then spans[i].offset else total
  }

  /** The first span starts at zero. */
  lemma StartsAtZero(t: Tables, owner: Owner, spans: seq<Span>)
    requires Readable(t, owner, spans)
    ensures Starts(spans, 0, |Content(t.streams, spans)|, 0)
  {
    assert spans[..0] == [];
  }

  /** The next span, or the end of the content, comes where a span ends. */
  lemma NextStarts(streams: map<StreamId, Stream>, spans: seq<Span>, i: nat)
    requires SpansFit(streams, spans) && Consecutive(streams, spans) && i < |spans|
    ensures Starts(spans, i + 1, |Content(streams, spans)|, spans[i].offset + spans[i].count)
  {
    SpanInContent(streams, spans, i);
    if i + 1 == |spans| {
      assert spans[..i + 1] == spans;
    }
  }

  /** A span shows stored records of its stream's kind, and ends where the next one begins. */
  lemma SpanShown(t: Tables, owner: Owner, spans: seq<Span>, i: nat)
    requires Readable(t, owner, spans) && i < |spans|
    ensures Shows(t, t.streams[spans[i].stream], spans[i], Content(t.streams, spans))
    ensures t.streams[spans[i].stream].owner == owner
    ensures Starts(spans, i + 1, |Content(t.streams, spans)|, spans[i].offset + spans[i].count)
  {
    NextStarts(t.streams, spans, i);
    SpanInContent(t.streams, spans, i);
    SliceShows(t, t.streams[spans[i].stream], spans[i], Content(t.streams, spans));
  }

  lemma SliceShows(t: Tables, st: Stream, sp: Span, content: seq<RecordId>)
    requires sp.count <= |st.members| && sp.offset + sp.count <= |content|
    requires content[sp.offset..sp.offset + sp.count] == st.members[..sp.count]
    requires forall m :: 0 <= m < |st.members| ==> Fits(t, st, st.members[m])
    ensures Shows(t, st, sp, content)
  {
    forall m | 0 <= m < sp.count
      ensures content[sp.offset + m] == st.members[m] && Fits(t, st, st.members[m])
    {
      assert content[sp.offset..sp.offset + sp.count][m] == st.members[..sp.count][m];
    }
  }

  /** The complete ordered scan, span by span. */
  method Scan(t: Tables, owner: Owner, spans: seq<Span>, after: nat, limit: nat, q: Query) returns (result: seq<Row>)
    requires Readable(t, owner, spans)
    ensures result == Answer(t, spans, after, limit, q)
  {
    ghost var content := Content(t.streams, spans);
    ghost var hi: nat := 0;
    result := [];
    StartsAtZero(t, owner, spans);
    for i := 0 to |spans|
      invariant Starts(spans, i, |content|, hi) && hi <= |content|
      invariant result == Found(t, q, limit, content, after, hi)
    {
      var sp := spans[i];
      var st := t.streams[sp.stream];
      SpanShown(t, owner, spans, i);
      assert sp.offset == hi;
      if sp.offset + sp.count > after && (q.kind.None? || q.kind.value == st.kind) {
        if |result| >= limit {
          FoundFull(t, q, limit, content, after, hi, |content|);
          return;
        }
        result := ScanSpan(t, q, limit, st, sp, after, result, content);
      } else {
        SpanSkipped(t, q, limit, st, sp, after, content);
      }
      hi := sp.offset + sp.count;
    }
  }

  /** A view shows its owner's records only. */
  lemma ContentOwned(t: Tables, owner: Owner, spans: seq<Span>)
    requires Readable(t, owner, spans)
    ensures forall r :: r in Content(t.streams, spans) ==> r in t.records && t.records[r].owner == owner
  {
    if spans != [] {
      var n := |spans| - 1;
      forall i | 0 <= i < n
        ensures spans[..n][..i] == spans[..i]
      {
      }
      ContentOwned(t, owner, spans[..n]);
      var st := t.streams[spans[n].stream];
      forall r | r in st.members[..spans[n].count]
        ensures r in t.records && t.records[r].owner == owner
      {
        var m :| 0 <= m < spans[n].count && st.members[m] == r;
        assert Fits(t, st, st.members[m]);
      }
    }
  }

  /** The candidate route: join, order by ordinal, cut. */
  method Candidates(t: Tables, owner: Owner, spans: seq<Span>, after: nat, limit: nat, q: Query,
                    candidates: set<RecordId>) returns (result: seq<Row>)
    requires Readable(t, owner, spans) && AreCandidates(t, q, owner, candidates)
    ensures result == Answer(t, spans, after, limit, q)
  {
    ghost var content := Content(t.streams, spans);
    if candidates == {} {
      ContentOwned(t, owner, spans);
      NothingMatches(t, q, content, after, |content|);
      return [];
    }
    var joined: map<nat, RecordId> := map[];
    ghost var hi: nat := 0;
    StartsAtZero(t, owner, spans);
    for i := 0 to |spans|
      invariant Starts(spans, i, |content|, hi) && hi <= |content|
      invariant Joins(t, q, content, after, hi, joined)
    {
      SpanShown(t, owner, spans, i);
      joined := JoinSpan(t, q, t.streams[spans[i].stream], spans[i], after, candidates, joined, content);
      hi := spans[i].offset + spans[i].count;
    }
    result := InOrder(t, q, limit, joined, after, content);
  }

  /** The text index, where it is used, returns at least every text that contains the phrase. */
  ghost predicate IndexComplete(t: Tables, q: Query, indexed: bool, hits: set<TextId>) {
    indexed && |q.folded| >= 3 && '\0' !in q.folded ==>
      forall x :: x in t.texts && Contains(t.texts[x], q.folded) ==> x in hits
  }

  /** Without a source: by the text index where it is selective enough, by the ordered scan otherwise. */
  method RowsByText(t: Tables, owner: Owner, spans: seq<Span>, after: nat, limit: nat, q: Query, indexed: bool,
                    hits: set<TextId>) returns (result: seq<Row>)
    requires Readable(t, owner, spans) && IndexComplete(t, q, indexed, hits) && q.source.None?
    ensures result == Answer(t, spans, after, limit, q)
  {
    if q.folded != "" && indexed && |q.folded| >= 3 && '\0' !in q.folded {
      var c := Probe(t, q, owner, hits);
      if c.Some? {
        result := Candidates(t, owner, spans, after, limit, q, c.value);
        return;
      }
    }
    result := Scan(t, owner, spans, after, limit, q);
  }

  /** `rows`: a source is looked up alone, over the whole view; otherwise the query is answered from the cursor. */
  method Rows(t: Tables, owner: Owner, spans: seq<Span>, after: nat, limit: nat, q: Query, indexed: bool,
              hits: set<TextId>) returns (result: seq<Row>)
    requires Readable(t, owner, spans) && IndexComplete(t, q, indexed, hits)
    ensures q.source.Some? ==> result == Answer(t, spans, 0, limit, Query(None, "", q.source))
    ensures q.source.None? ==> result == Answer(t, spans, after, limit, q)
  {
    if q.source.Some? {
      var own := set r | r in t.records && t.records[r].owner == owner && t.records[r].source == q.source.value;
      result := Candidates(t, owner, spans, 0, limit, Query(None, "", q.source), own);
    } else {
      result := RowsByText(t, owner, spans, after, limit, q, indexed, hits);
    }
  }

  /** All matching rows of a view from an ordinal on. */
  ghost function Rest(t: Tables, spans: seq<Span>, from: nat, q: Query): seq<Row>
    requires SpansFit(t.streams, spans)
  {
    Matching(t, q, Content(t.streams, spans), from, |Content(t.streams, spans)|)
  }

  /** How many rows a page holds. */
  function PageSize(limit: int, most: nat): (n: nat)
    requires most >= 1
    ensures 1 <= n <= most
  {
    if limit < 1 then 1 else if limit > most then most else limit
  }

  /** One page, and the cursor of the next where there is more. */
  method Page(t: Tables, owner: Owner, spans: seq<Span>, from: nat, limit: int, most: nat, q: Query, indexed: bool,
              hits: set<TextId>) returns (items: seq<Row>, next: Option<nat>)
    requires Readable(t, owner, spans) && IndexComplete(t, q, indexed, hits) && most >= 1 && q.source.None?
    ensures items == Take(PageSize(limit, most), Rest(t, spans, from, q))
    ensures next.Some? <==> |Rest(t, spans, from, q)| > PageSize(limit, most)
    ensures next.Some? ==> Rest(t, spans, from, q) == items + Rest(t, spans, next.value, q)
    ensures next.Some? ==> from < next.value <= |Content(t.streams, spans)|
  {
    var cap := PageSize(limit, most);
    var rows := Rows(t, owner, spans, from, cap + 1, q, indexed, hits);
    ghost var all := Rest(t, spans, from, q);
    assert rows == Take(cap + 1, all);
    if |rows| <= cap {
      return rows, None;
    }
    next := Some(rows[cap - 1].ordinal + 1);
    items := rows[..cap];
    assert items == all[..cap] && rows[cap - 1] == all[cap - 1];
    CutMatching(t, q, Content(t.streams, spans), from, |Content(t.streams, spans)|, cap);
  }

  /** The record of `source` that is shown first. */
  ghost predicate AnchoredAt(t: Tables, spans: seq<Span>, source: SourceId, k: nat)
    requires SpansFit(t.streams, spans)
  {
    var content, q := Content(t.streams, spans), Query(None, "", Some(source));
    k < |content| && Matches(t, q, content[k]) && forall j :: 0 <= j < k ==> !Matches(t, q, content[j])
  }

  lemma AnchorIsFirst(t: Tables, spans: seq<Span>, source: SourceId)
    requires SpansFit(t.streams, spans)
    ensures var content, q := Content(t.streams, spans), Query(None, "", Some(source));
            var found := Answer(t, spans, 0, 1, q);
            if found == [] then forall k: nat :: !AnchoredAt(t, spans, source, k)
            else AnchoredAt(t, spans, source, found[0].ordinal)
  {
    var content, q := Content(t.streams, spans), Query(None, "", Some(source));
    if j: nat :| j < |content| && Matches(t, q, content[j]) {
      var k := Earliest(t, q, content, j);
      FirstMatch(t, q, content, 0, k);
    } else {
      NothingMatches(t, q, content, 0, |content|);
    }
  }

  lemma {:induction false} Earliest(t: Tables, q: Query, content: seq<RecordId>, j: nat) returns (k: nat)
    requires j < |content| && Matches(t, q, content[j])
    ensures k <= j && Matches(t, q, content[k]) && forall i :: 0 <= i < k ==> !Matches(t, q, content[i])
  {
    if i: nat :| i < j && Matches(t, q, content[i]) {
      k := Earliest(t, q, content, i);
    } else {
      k := j;
    }
  }

  /** The ordinal at which a page around an anchor begins. */
  function Around(anchor: nat, before: int): nat {
    var back := if before < 0 then 0 else if before > 100 then 100 else before;
    if anchor < back then 0 else anchor - back
  }

  /**
  `read`: a page from a cursor, or from a little before the first record of the source `around`; without
  such a record in the view it refuses.
  */
  method Read(t: Tables, owner: Owner, spans: seq<Span>, after: int, limit: int, kind: Option<Kind>,
              around: Option<SourceId>, before: int) returns (page: Option<(seq<Row>, Option<nat>)>, ghost from: nat)
    requires Readable(t, owner, spans)
    ensures page.None? <==> around.Some? && forall k: nat :: !AnchoredAt(t, spans, around.value, k)
    ensures page.Some? && around.None? ==> from == if after < 0 then 0 else after
    ensures page.Some? && around.Some? ==>
              exists k: nat :: AnchoredAt(t, spans, around.value, k) && from == Around(k, before)
    ensures page.Some? ==>
              var (items, next) := page.value;
              var rest := Rest(t, spans, from, Query(kind, "", None));
              && items == Take(PageSize(limit, 200), rest) && (next.Some? <==> |rest| > PageSize(limit, 200))
              && (next.Some? ==> rest == items + Rest(t, spans, next.value, Query(kind, "", None)))
  {
    var start: nat := if after < 0 then 0 else after;
    from := start;
    if around.Some? {
      AnchorIsFirst(t, spans, around.value);
      var anchor := Rows(t, owner, spans, 0, 1, Query(None, "", around), false, {});
      if anchor == [] { return None, 0; }
      start := Around(anchor[0].ordinal, before);
      from := start;
    }
    var items, next := Page(t, owner, spans, start, limit, 200, Query(kind, "", None), false, {});
    page := Some((items, next));
  }

  /** `iter_records` and repeated searches: following the cursor yields every matching row once, in order. */
  method IterPages(t: Tables, owner: Owner, spans: seq<Span>, limit: int, most: nat, q: Query, indexed: bool,
                   hits: set<TextId>) returns (all: seq<Row>)
    requires Readable(t, owner, spans) && IndexComplete(t, q, indexed, hits) && most >= 1 && q.source.None?
    ensures all == Rest(t, spans, 0, q)
  {
    var items, next := Page(t, owner, spans, 0, limit, most, q, indexed, hits);
    all := items;
    while next.Some?
      invariant next.None? ==> all == Rest(t, spans, 0, q)
      invariant next.Some? ==> all + Rest(t, spans, next.value, q) == Rest(t, spans, 0, q)
      invariant next.Some? ==> next.value <= |Content(t.streams, spans)|
      decreases if next.None? then 0 else 1 + |Content(t.streams, spans)| - next.value
    {
      ghost var before := all;
      items, next := Page(t, owner, spans, next.value, limit, most, q, indexed, hits);
      all := all + items;
      if next.Some? {
        assert before + (items + Rest(t, spans, next.value, q)) == all + Rest(t, spans, next.value, q);
      }
    }
  }

  /** Reading a whole view without a filter yields each of its records once, at its ordinal. */
  lemma WholeView(t: Tables, owner: Owner, spans: seq<Span>)
    requires Readable(t, owner, spans)
    ensures var content := Content(t.streams, spans);
            var rows := Rest(t, spans, 0, Query(None, "", None));
            |rows| == |content| && forall k :: 0 <= k < |content| ==> rows[k] == Row(k, content[k])
  {
    ContentOwned(t, owner, spans);
    EverythingMatches(t, Content(t.streams, spans), |Content(t.streams, spans)|);
  }
}
