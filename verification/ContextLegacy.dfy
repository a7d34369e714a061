/**
What the legacy views of `backend/context_index.py` hold, and what their migration makes of them: which
record answers for a row, and which text it keeps.
*/
module ContextLegacy {
  import opened Common
  import opened ContextViews

  type Conversation = nat

  /** The head of a conversation, as a watermark names it. */
  type Head = nat

  /** A view of the legacy schema: its rows of each kind, as the records they ask for, and its canonical watermark. */
  datatype LegacyView = LegacyView(
    id: ViewId, owner: Owner, rows: map<Kind, seq<Record>>, cursor: Option<(Conversation, Head)>)

  /** The order in which the kinds of a view are migrated. */
  const KINDS: seq<Kind> := [MessageKind, CellKind, SnapshotKind]

  /** The place of a kind in that order. */
  function Turn(kind: Kind): (k: nat)
    ensures k < |KINDS| && KINDS[k] == kind
  {
    match kind
    case MessageKind => 0
    case CellKind => 1
    case SnapshotKind => 2
  }

  function RowsOf(view: LegacyView, kind: Kind): seq<Record> {
    if kind in view.rows then view.rows[kind] else []
  }

  /** Rows of the owner and kind with stored texts, each source at most once: the keys of the legacy tables. */
  predicate LegacyRows(texts: map<TextId, string>, owner: Owner, kind: Kind, rows: seq<Record>) {
    && (forall i :: 0 <= i < |rows| ==>
          rows[i].owner == owner && rows[i].source.kind == kind && rows[i].text in texts)
    && (forall i, j :: 0 <= i < j < |rows| ==> rows[i].source != rows[j].source)
  }

  ghost predicate LegacyOk(texts: map<TextId, string>, view: LegacyView) {
    forall kind :: LegacyRows(texts, view.owner, kind, RowsOf(view, kind))
  }

  /** The rows of the first `n` kinds, one kind after another. */
  function LegacyContent(view: LegacyView, n: nat): seq<Record>
    requires n <= |KINDS|
  {
    if n == 0 then [] else LegacyContent(view, n - 1) + RowsOf(view, KINDS[n - 1])
  }

  /** The rows of the first `n` views, in the order in which they are migrated. */
  function Arrivals(legacy: seq<LegacyView>, n: nat): seq<Record>
    requires n <= |legacy|
  {
    if n == 0 then [] else Arrivals(legacy, n - 1) + LegacyContent(legacy[n - 1], |KINDS|)
  }

  // ---- keys ---------------------------------------------------------------------------------------------------

  function KeysOf(rows: seq<Record>): (ks: seq<Key>)
    ensures |ks| == |rows| && forall i :: 0 <= i < |rows| ==> ks[i] == KeyOf(rows[i])
  {
    if rows == [] then [] else KeysOf(rows[..|rows| - 1]) + [KeyOf(rows[|rows| - 1])]
  }

  /** The keys of stored records. */
  ghost function KeysAt(records: map<RecordId, Record>, ids: seq<RecordId>): (ks: seq<Key>)
    requires forall i :: 0 <= i < |ids| ==> ids[i] in records
    ensures |ks| == |ids| && forall i :: 0 <= i < |ids| ==> ks[i] == KeyOf(records[ids[i]])
  {
    if ids == [] then [] else KeysAt(records, ids[..|ids| - 1]) + [KeyOf(records[ids[|ids| - 1]])]
  }

  lemma {:induction false} KeysAppend(a: seq<Record>, b: seq<Record>)
    ensures KeysOf(a + b) == KeysOf(a) + KeysOf(b)
  {}

  lemma KeysAtAppend(records: map<RecordId, Record>, a: seq<RecordId>, b: seq<RecordId>)
    requires forall i :: 0 <= i < |a| ==> a[i] in records
    requires forall i :: 0 <= i < |b| ==> b[i] in records
    ensures forall i :: 0 <= i < |a + b| ==> (a + b)[i] in records
    ensures KeysAt(records, a + b) == KeysAt(records, a) + KeysAt(records, b)
  {}

  /** The keys of what a stream shows. */
  ghost function Keys(t: Tables, s: StreamId): (ks: seq<Key>)
    requires StreamsOk(t) && s in t.streams
    ensures |ks| == |t.streams[s].members|
    ensures forall i :: 0 <= i < |ks| ==>
              t.streams[s].members[i] in t.records && ks[i] == KeyOf(t.records[t.streams[s].members[i]])
  {
    assert forall i :: 0 <= i < |t.streams[s].members| ==> Fits(t, t.streams[s], t.streams[s].members[i]);
    KeysAt(t.records, t.streams[s].members)
  }

  predicate RecordsKept(a: map<RecordId, Record>, b: map<RecordId, Record>) {
    forall r :: r in a ==> r in b && b[r] == a[r]
  }

  /** Nothing stored is lost or changed, and streams only grow. */
  ghost predicate Extends(a: Tables, b: Tables) {
    Grown(a.streams, b.streams) && RecordsKept(a.records, b.records) && b.texts == a.texts
  }

  lemma ExtendsTransitive(a: Tables, b: Tables, c: Tables)
    requires Extends(a, b) && Extends(b, c)
    ensures Extends(a, c)
  {
    forall s ensures GrownAt(a.streams, c.streams, s) {
      assert GrownAt(a.streams, b.streams, s) && GrownAt(b.streams, c.streams, s);
    }
  }

  lemma KeysGrow(a: Tables, b: Tables, s: StreamId)
    requires StreamsOk(a) && StreamsOk(b) && Extends(a, b) && s in a.streams
    ensures s in b.streams && Keys(a, s) <= Keys(b, s)
    ensures a.streams[s] == b.streams[s] ==> Keys(a, s) == Keys(b, s)
  {
    assert GrownAt(a.streams, b.streams, s);
    var members := b.streams[s].members;
    assert forall i :: 0 <= i < |Keys(a, s)| ==> members[i] == a.streams[s].members[i];
    assert forall i :: 0 <= i < |Keys(a, s)| ==> Keys(a, s)[i] == Keys(b, s)[i];
  }

  // ---- which record answers for a row -------------------------------------------------------------------------

  predicate SameKey(records: map<RecordId, Record>, a: RecordId, b: RecordId) {
    a in records && b in records && KeyOf(records[a]) == KeyOf(records[b])
  }

  /** `UNIQUE(source_chat_id, source_id, version)`. */
  ghost predicate KeysUnique(records: map<RecordId, Record>) {
    forall a, b :: SameKey(records, a, b) ==> a == b
  }

  /** The text stored for a key. */
  ghost function TextUnder(records: map<RecordId, Record>, key: Key): Option<TextId> {
    if r :| r in records && KeyOf(records[r]) == key then Some(records[r].text) else None
  }

  /** The text first seen for a key: in the table, or else in the first of `n` arrivals with that key. */
  ghost function FirstText(was: map<RecordId, Record>, arrivals: seq<Record>, key: Key, n: nat): Option<TextId>
    requires n <= |arrivals|
  {
    if n == 0 then TextUnder(was, key)
    else
      var before := FirstText(was, arrivals, key, n - 1);
      if before.None? && KeyOf(arrivals[n - 1]) == key then Some(arrivals[n - 1].text) else before
  }

  /** After the arrivals, every key has one record, with the text first seen for it, and nothing else is stored. */
  ghost predicate Retained(was: map<RecordId, Record>, records: map<RecordId, Record>, arrivals: seq<Record>) {
    && KeysUnique(records) && RecordsKept(was, records)
    && forall key :: TextUnder(records, key) == FirstText(was, arrivals, key, |arrivals|)
  }

  lemma TextOfRecord(records: map<RecordId, Record>, r: RecordId)
    requires KeysUnique(records) && r in records
    ensures TextUnder(records, KeyOf(records[r])) == Some(records[r].text)
  {
    var x :| x in records && KeyOf(records[x]) == KeyOf(records[r])
                          && TextUnder(records, KeyOf(records[r])) == Some(records[x].text);
    assert SameKey(records, x, r);
  }

  /** `INSERT OR IGNORE` of one row: `r` is the record of its key afterwards. */
  function WithRow(records: map<RecordId, Record>, r: RecordId, row: Record): map<RecordId, Record> {
    if r in records then records else records[r := row]
  }

  lemma RetainedOne(records: map<RecordId, Record>, r: RecordId, row: Record)
    requires KeysUnique(records)
    requires if r in records then KeyOf(records[r]) == KeyOf(row)
             else forall x :: x in records ==> KeyOf(records[x]) != KeyOf(row)
    ensures Retained(records, WithRow(records, r, row), [row])
  {
    var after := WithRow(records, r, row);
    forall a, b | SameKey(after, a, b) ensures a == b {
      assert a in records && b in records ==> SameKey(records, a, b);
    }
    forall key ensures TextUnder(after, key) == FirstText(records, [row], key, 1) {
      assert FirstText(records, [row], key, 0) == TextUnder(records, key);
      if x :| x in records && KeyOf(records[x]) == key {
        TextOfRecord(records, x);
        TextOfRecord(after, x);
      } else if key == KeyOf(row) {
        TextOfRecord(after, r);
      } else {
        assert forall x :: x in after ==> KeyOf(after[x]) != key;
      }
    }
  }

  lemma {:induction false} FirstTextContinues(a: map<RecordId, Record>, b: map<RecordId, Record>, xs: seq<Record>,
                                              ys: seq<Record>, key: Key, n: nat)
    requires n <= |ys| && TextUnder(b, key) == FirstText(a, xs, key, |xs|)
    ensures FirstText(a, xs + ys, key, |xs| + n) == FirstText(b, ys, key, n)
  {
    if n == 0 {
      FirstTextPrefix(a, xs, ys, key, |xs|);
    } else {
      FirstTextContinues(a, b, xs, ys, key, n - 1);
    }
  }

  lemma {:induction false} FirstTextPrefix(a: map<RecordId, Record>, xs: seq<Record>, ys: seq<Record>, key: Key, n: nat)
    requires n <= |xs|
    ensures FirstText(a, xs + ys, key, n) == FirstText(a, xs, key, n)
  {
    if n > 0 {
      FirstTextPrefix(a, xs, ys, key, n - 1);
    }
  }

  /** One batch of rows after another. */
  lemma {:induction false} RetainedTransitive(a: map<RecordId, Record>, b: map<RecordId, Record>,
                                              c: map<RecordId, Record>, xs: seq<Record>, ys: seq<Record>)
    requires Retained(a, b, xs) && Retained(b, c, ys)
    ensures Retained(a, c, xs + ys)
  {
    forall key ensures TextUnder(c, key) == FirstText(a, xs + ys, key, |xs + ys|) {
      FirstTextContinues(a, b, xs, ys, key, |ys|);
    }
  }

  lemma RetainedNothing(records: map<RecordId, Record>)
    requires KeysUnique(records)
    ensures Retained(records, records, [])
  {}

  /** The text first seen for a key is in the table, or in the first row with that key. */
  lemma {:induction false} FirstTextIs(was: map<RecordId, Record>, arrivals: seq<Record>, key: Key, n: nat)
    requires n <= |arrivals|
    ensures TextUnder(was, key).Some? ==> FirstText(was, arrivals, key, n) == TextUnder(was, key)
    ensures TextUnder(was, key).None? && FirstText(was, arrivals, key, n).None? ==>
              forall i :: 0 <= i < n ==> KeyOf(arrivals[i]) != key
    ensures TextUnder(was, key).None? && FirstText(was, arrivals, key, n).Some? ==>
              exists i :: 0 <= i < n && KeyOf(arrivals[i]) == key
                          && FirstText(was, arrivals, key, n) == Some(arrivals[i].text)
                          && forall j :: 0 <= j < i ==> KeyOf(arrivals[j]) != key
  {
    if n > 0 {
      FirstTextIs(was, arrivals, key, n - 1);
      if TextUnder(was, key).None? && FirstText(was, arrivals, key, n - 1).Some? {
        var i :| 0 <= i < n - 1 && KeyOf(arrivals[i]) == key
                 && FirstText(was, arrivals, key, n - 1) == Some(arrivals[i].text)
                 && forall j :: 0 <= j < i ==> KeyOf(arrivals[j]) != key;
        assert FirstText(was, arrivals, key, n) == Some(arrivals[i].text);
      }
    }
  }

  // ---- views ----------------------------------------------------------------------------------------------------

  /** A view of the owner shows the records of the rows, in order. */
  ghost predicate ShowsRows(t: Tables, owner: Owner, spans: seq<Span>, rows: seq<Record>) {
    && ViewOk(t.streams, owner, spans)
    && (forall i :: 0 <= i < |Content(t.streams, spans)| ==> Content(t.streams, spans)[i] in t.records)
    && KeysAt(t.records, Content(t.streams, spans)) == KeysOf(rows)
  }

  lemma {:induction false} StillShowsRows(a: Tables, b: Tables, owner: Owner, spans: seq<Span>, rows: seq<Record>)
    requires Extends(a, b) && ShowsRows(a, owner, spans, rows)
    ensures ShowsRows(b, owner, spans, rows) && Content(b.streams, spans) == Content(a.streams, spans)
  {
    ViewGrows(a.streams, b.streams, owner, spans);
    var ids := Content(a.streams, spans);
    assert forall i :: 0 <= i < |ids| ==> ids[i] in b.records && KeyOf(b.records[ids[i]]) == KeyOf(a.records[ids[i]]);
    assert KeysAt(b.records, ids) == KeysAt(a.records, ids);
  }

  /** The record shown for row `j` has the text of that row. */
  predicate ReadsText(t: Tables, r: RecordId, row: Record) {
    && r in t.records && t.records[r].text in t.texts && row.text in t.texts
    && t.texts[t.records[r].text] == t.texts[row.text]
  }

  /** The text first seen for the key of a row is that of the row. */
  ghost predicate OwnText(was: map<RecordId, Record>, texts: map<TextId, string>, arrivals: seq<Record>, row: Record) {
    var first := FirstText(was, arrivals, KeyOf(row), |arrivals|);
    first.Some? && first.value in texts && row.text in texts && texts[first.value] == texts[row.text]
  }

  /** A row reads back its own text if and only if that is the text first seen for its owner, source and version. */
  lemma {:induction false} OwnTextExactly(was: map<RecordId, Record>, t: Tables, arrivals: seq<Record>, owner: Owner,
                                          spans: seq<Span>, rows: seq<Record>, j: nat)
    requires StreamsOk(t) && Retained(was, t.records, arrivals)
    requires ShowsRows(t, owner, spans, rows) && j < |rows|
    ensures |Content(t.streams, spans)| == |rows|
    ensures ReadsText(t, Content(t.streams, spans)[j], rows[j]) <==> OwnText(was, t.texts, arrivals, rows[j])
  {
    var r := Content(t.streams, spans)[j];
    assert KeysAt(t.records, Content(t.streams, spans))[j] == KeysOf(rows)[j];
    TextOfRecord(t.records, r);
    assert TextUnder(t.records, KeyOf(rows[j])) == FirstText(was, arrivals, KeyOf(rows[j]), |arrivals|);
  }

  /** A migrated view belongs to its owner and shows its rows, kind by kind. */
  ghost predicate ReadsBack(t: Tables, views: map<ViewId, (Owner, seq<Span>)>, view: LegacyView) {
    && view.id in views && views[view.id].0 == view.owner
    && ShowsRows(t, view.owner, views[view.id].1, LegacyContent(view, |KINDS|))
  }

  /** ... each with its own text. */
  ghost predicate ReadsTexts(t: Tables, views: map<ViewId, (Owner, seq<Span>)>, view: LegacyView)
    requires ReadsBack(t, views, view)
  {
    var ids, rows := Content(t.streams, views[view.id].1), LegacyContent(view, |KINDS|);
    |ids| == |rows| && forall j :: 0 <= j < |rows| ==> ReadsText(t, ids[j], rows[j])
  }

  predicate SameText(texts: map<TextId, string>, a: TextId, b: TextId) {
    a in texts && b in texts && texts[a] == texts[b]
  }

  /** No two rows of one owner, source and version have different texts, and no row differs from a stored record. */
  ghost predicate Consistent(was: map<RecordId, Record>, texts: map<TextId, string>, rows: seq<Record>) {
    && (forall a, b :: a in rows && b in rows && KeyOf(a) == KeyOf(b) ==> SameText(texts, a.text, b.text))
    && (forall r, a :: r in was && a in rows && KeyOf(was[r]) == KeyOf(a) ==> SameText(texts, was[r].text, a.text))
  }

  lemma {:induction false} OwnTextsExactly(was: map<RecordId, Record>, texts: map<TextId, string>, rows: seq<Record>)
    requires KeysUnique(was)
    ensures (forall a :: a in rows ==> OwnText(was, texts, rows, a)) <==> Consistent(was, texts, rows)
  {
    forall a | a in rows && Consistent(was, texts, rows) ensures OwnText(was, texts, rows, a) {
      var i :| 0 <= i < |rows| && rows[i] == a;
      FirstTextIs(was, rows, KeyOf(a), |rows|);
      if TextUnder(was, KeyOf(a)).Some? {
        var r :| r in was && KeyOf(was[r]) == KeyOf(a);
        TextOfRecord(was, r);
      }
    }
    if forall a :: a in rows ==> OwnText(was, texts, rows, a) {
      forall r, a | r in was && a in rows && KeyOf(was[r]) == KeyOf(a) ensures SameText(texts, was[r].text, a.text) {
        FirstTextIs(was, rows, KeyOf(a), |rows|);
        TextOfRecord(was, r);
        assert OwnText(was, texts, rows, a);
      }
      forall a, b | a in rows && b in rows && KeyOf(a) == KeyOf(b) ensures SameText(texts, a.text, b.text) {
        assert OwnText(was, texts, rows, a) && OwnText(was, texts, rows, b);
      }
    }
  }

  predicate HasRow(view: LegacyView, row: Record) {
    row in LegacyContent(view, |KINDS|)
  }

  lemma {:induction false} ArrivalsAre(legacy: seq<LegacyView>, n: nat, row: Record)
    requires n <= |legacy|
    ensures row in Arrivals(legacy, n) <==> exists i :: 0 <= i < n && HasRow(legacy[i], row)
  {
    if n > 0 {
      ArrivalsAre(legacy, n - 1, row);
      var last := LegacyContent(legacy[n - 1], |KINDS|);
      assert Arrivals(legacy, n) == Arrivals(legacy, n - 1) + last;
      assert row in last <==> HasRow(legacy[n - 1], row);
    }
  }

  /**
  All migrated views read back all their texts if and only if no two rows of one owner, source and version
  have different texts, and no row differs from a record stored before.
  */
  lemma {:induction false} TextsSurviveExactly(was: map<RecordId, Record>, t: Tables,
                                               views: map<ViewId, (Owner, seq<Span>)>, legacy: seq<LegacyView>)
    requires KeysUnique(was) && StreamsOk(t) && Retained(was, t.records, Arrivals(legacy, |legacy|))
    requires forall i :: 0 <= i < |legacy| ==> ReadsBack(t, views, legacy[i])
    ensures (forall i :: 0 <= i < |legacy| ==> ReadsTexts(t, views, legacy[i]))
       <==> Consistent(was, t.texts, Arrivals(legacy, |legacy|))
  {
    var all := Arrivals(legacy, |legacy|);
    OwnTextsExactly(was, t.texts, all);
    forall i | 0 <= i < |legacy|
      ensures ReadsTexts(t, views, legacy[i])
         <==> forall row :: HasRow(legacy[i], row) ==> OwnText(was, t.texts, all, row)
    {
      ViewTextsExactly(was, t, views, all, legacy[i]);
    }
    forall row ensures row in all <==> exists i :: 0 <= i < |legacy| && HasRow(legacy[i], row) {
      ArrivalsAre(legacy, |legacy|, row);
    }
  }

  lemma {:induction false} ViewTextsExactly(was: map<RecordId, Record>, t: Tables,
                                            views: map<ViewId, (Owner, seq<Span>)>, all: seq<Record>, view: LegacyView)
    requires StreamsOk(t) && Retained(was, t.records, all) && ReadsBack(t, views, view)
    ensures ReadsTexts(t, views, view)
       <==> forall row :: HasRow(view, row) ==> OwnText(was, t.texts, all, row)
  {
    var spans, rows := views[view.id].1, LegacyContent(view, |KINDS|);
    assert |Content(t.streams, spans)| == |KeysAt(t.records, Content(t.streams, spans))| == |rows|;
    forall j | 0 <= j < |rows|
      ensures ReadsText(t, Content(t.streams, spans)[j], rows[j]) <==> OwnText(was, t.texts, all, rows[j])
    {
      OwnTextExactly(was, t, all, view.owner, spans, rows, j);
    }
    if ReadsTexts(t, views, view) {
      forall row | HasRow(view, row) ensures OwnText(was, t.texts, all, row) {
        var j :| 0 <= j < |rows| && rows[j] == row;
      }
    }
  }
}
