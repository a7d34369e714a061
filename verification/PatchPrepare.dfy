/**
`_prepare_patch` and the choice of one final operation per path in `backend/builtin_tools.py`:
an ordered list of changes becomes rows, only the last row of a path is committed, and the files
end up as if the changes had been made one after another.
*/
module PatchPrepare {
  import opened Common
  import opened PatchJournal

  type Text = string

  datatype Change =
    | Write(path: Path, content: Text)
    | Replace(path: Path, find: Text, replacement: Text, count: int)
    | Remove(path: Path)

  /** A file as the tool reads it; an existing file may refuse to be read. */
  datatype Doc = Readable(text: Text) | Opaque

  // ---- text ----------------------------------------------------------------------------------

  /** Text-mode reading: every newline spelling becomes a line feed. */
  function Read(raw: Content): Text {
    if raw == "" then ""
    else if raw[0] != '\r' then [raw[0]] + Read(raw[1..])
    else if |raw| > 1 && raw[1] == '\n' then "\n" + Read(raw[2..])
    else "\n" + Read(raw[1..])
  }

  /** `str.count`: non-overlapping occurrences, found left to right. */
  function Occurrences(s: Text, find: Text): nat
    requires find != ""
  {
    if |s| < |find| then 0
    else if s[..|find|] == find then 1 + Occurrences(s[|find|..], find)
    else Occurrences(s[1..], find)
  }

  /** `str.replace` with at most `k` replacements. */
  function Substitute(s: Text, find: Text, replacement: Text, k: nat): Text
    requires find != ""
  {
    if k == 0 || |s| < |find| then s
    else if s[..|find|] == find then replacement + Substitute(s[|find|..], find, replacement, k - 1)
    else [s[0]] + Substitute(s[1..], find, replacement, k)
  }

  /** How many replacements a change makes: all of them for count zero. */
  function Used(s: Text, find: Text, count: nat): nat
    requires find != ""
  {
    var n := Occurrences(s, find);
    if count == 0 || n < count then n else count
  }

  function Least(a: nat, b: nat): nat {
    if a < b then a else b
  }

  /** The text cut at its first `k` occurrences, as `str.split` does. */
  function Pieces(s: Text, find: Text, k: nat): (r: seq<Text>)
    requires find != ""
    ensures |r| > 0
    decreases |s|
  {
    if k == 0 || |s| < |find| then [s]
    else if s[..|find|] == find then [""] + Pieces(s[|find|..], find, k - 1)
    else
      var rest := Pieces(s[1..], find, k);
      [[s[0]] + rest[0]] + rest[1..]
  }

  function JoinWith(pieces: seq<Text>, separator: Text): Text
    requires |pieces| > 0
  {
    if |pieces| == 1 then pieces[0] else pieces[0] + separator + JoinWith(pieces[1..], separator)
  }

  lemma JoinWithLonger(c: Text, pieces: seq<Text>, separator: Text)
    requires |pieces| > 0
    ensures JoinWith([c + pieces[0]] + pieces[1..], separator) == c + JoinWith(pieces, separator)
  {
    var longer := [c + pieces[0]] + pieces[1..];
    assert longer[1..] == pieces[1..];
    if |pieces| > 1 {
      assert c + (pieces[0] + separator + JoinWith(pieces[1..], separator))
          == (c + pieces[0]) + separator + JoinWith(pieces[1..], separator);
    }
  }

  /** What cutting and joining means for one cut. */
  ghost predicate Cuts(s: Text, find: Text, replacement: Text, k: nat)
    requires find != ""
  {
    && |Pieces(s, find, k)| == 1 + Least(Occurrences(s, find), k)
    && JoinWith(Pieces(s, find, k), find) == s
    && JoinWith(Pieces(s, find, k), replacement) == Substitute(s, find, replacement, k)
  }

  lemma CutsAtMatch(s: Text, find: Text, replacement: Text, k: nat)
    requires find != "" && k > 0 && find <= s && Cuts(s[|find|..], find, replacement, k - 1)
    ensures Cuts(s, find, replacement, k)
  {
    var rest := Pieces(s[|find|..], find, k - 1);
    assert s[..|find|] == find && Pieces(s, find, k) == [""] + rest;
    assert ([""] + rest)[1..] == rest;
    assert s == find + s[|find|..];
  }

  lemma CutsAtOther(s: Text, find: Text, replacement: Text, k: nat)
    requires find != "" && k > 0 && |s| >= |find| && s[..|find|] != find && Cuts(s[1..], find, replacement, k)
    ensures Cuts(s, find, replacement, k)
  {
    var rest := Pieces(s[1..], find, k);
    JoinWithLonger([s[0]], rest, find);
    JoinWithLonger([s[0]], rest, replacement);
    assert s == [s[0]] + s[1..];
  }

  /**
  Replacing cuts the text at as many occurrences as the tool reports, and puts the replacement into
  exactly those gaps; nothing between them changes.
  */
  lemma {:induction false} SubstitutePieces(s: Text, find: Text, replacement: Text, k: nat)
    requires find != ""
    ensures |Pieces(s, find, k)| == 1 + Least(Occurrences(s, find), k)
    ensures JoinWith(Pieces(s, find, k), find) == s
    ensures JoinWith(Pieces(s, find, k), replacement) == Substitute(s, find, replacement, k)
    decreases |s|
  {
    if k != 0 && |s| >= |find| {
      if s[..|find|] == find {
        SubstitutePieces(s[|find|..], find, replacement, k - 1);
        CutsAtMatch(s, find, replacement, k);
      } else {
        SubstitutePieces(s[1..], find, replacement, k);
        CutsAtOther(s, find, replacement, k);
      }
    }
  }

  // ---- the reference: one change after another -----------------------------------------------

  /** One change on the documents, or None where the tool refuses it. */
  function Edit(docs: map<Path, Doc>, c: Change): Option<map<Path, Doc>> {
    match c
    case Write(p, content) => Some(docs[p := Readable(content)])
    case Replace(p, find, replacement, count) =>
      if p in docs && docs[p].Readable? && find != "" && count >= 0 && Occurrences(docs[p].text, find) > 0
      then Some(docs[p := Readable(Substitute(docs[p].text, find, replacement, Used(docs[p].text, find, count)))])
      else None
    case Remove(p) => if p in docs then Some(docs - {p}) else None
  }

  function EditAll(docs: map<Path, Doc>, changes: seq<Change>): Option<map<Path, Doc>> {
    if changes == [] then Some(docs)
    else
      var before := EditAll(docs, changes[..|changes| - 1]);
      if before.None? then None else Edit(before.value, changes[|changes| - 1])
  }

  lemma {:induction false} RefusedPrefix(docs: map<Path, Doc>, changes: seq<Change>, i: nat)
    requires i <= |changes| && EditAll(docs, changes[..i]).None?
    ensures EditAll(docs, changes).None?
  {
    if i < |changes| {
      assert changes[..|changes| - 1][..i] == changes[..i];
      RefusedPrefix(docs, changes[..|changes| - 1], i);
    } else {
      assert changes[..i] == changes;
    }
  }

  lemma EditOneMore(docs: map<Path, Doc>, changes: seq<Change>, i: nat)
    requires i < |changes|
    ensures EditAll(docs, changes[..i + 1]) ==
            var before := EditAll(docs, changes[..i]);
            if before.None? then None else Edit(before.value, changes[i])
  {
    assert changes[..i + 1][..i] == changes[..i];
  }

  /** The files `v` as documents. */
  function Docs(v: map<Path, Content>, unreadable: set<Path>): map<Path, Doc> {
    map p | p in v :: if p in unreadable then Opaque else Readable(Read(v[p]))
  }

  /** The paths a list of changes touches. */
  function Touched(changes: seq<Change>): set<Path> {
    if changes == [] then {} else Touched(changes[..|changes| - 1]) + {changes[|changes| - 1].path}
  }

  function TextOf(d: Option<Doc>): Option<Content> {
    if d.Some? && d.value.Readable? then Some(d.value.text) else None
  }

  /** `files` are `v` with the documents `docs` written at the touched paths. */
  ghost predicate Realises(files: map<Path, Content>, v: map<Path, Content>, changes: seq<Change>,
                           docs: map<Path, Doc>) {
    forall p :: Get(files, p) == if p in Touched(changes) then TextOf(Get(docs, p)) else Get(v, p)
  }

  // ---- preparation -----------------------------------------------------------------------------

  datatype Virtual = Virtual(signature: Option<Content>, present: bool, loaded: bool, content: Text)

  predicate Allowed(changes: seq<Change>, folders: set<Path>) {
    && 1 <= |changes| <= 50
    && forall i :: 0 <= i < |changes| ==> !AtFolder(changes, folders, i)
  }

  predicate AtFolder(changes: seq<Change>, folders: set<Path>, i: nat)
    requires i < |changes|
  {
    changes[i].path in folders
  }

  /** The state kept for one path agrees with the documents reached so far. */
  ghost predicate Agrees(state: Virtual, d: Option<Doc>) {
    && (state.present <==> d.Some?)
    && (state.present && state.loaded ==> d == Some(Readable(state.content)))
    && (state.present && !state.loaded ==> d == Some(Opaque))
  }

  /** One row per change, for its path, with the signature found when the path was first touched. */
  ghost predicate RowsFollow(v: map<Path, Content>, done: seq<Change>, rows: seq<Row>) {
    && |rows| == |done|
    && forall i :: 0 <= i < |rows| ==> rows[i].path == done[i].path && rows[i].signature == Get(v, rows[i].path)
  }

  /** The virtual states agree with the documents `d` reached from `docs`. */
  ghost predicate StatesFollow(v: map<Path, Content>, docs: map<Path, Doc>, d: map<Path, Doc>,
                               states: map<Path, Virtual>) {
    && (forall p :: p in states ==>
          states[p].signature == Get(v, p) && Agrees(states[p], Get(d, p)) && Get(d, p) != Some(Opaque))
    && (forall p :: p !in states ==> Get(d, p) == Get(docs, p))
  }

  /** The state of a path when a change first touches it. */
  function Load(v: map<Path, Content>, unreadable: set<Path>, p: Path): (state: Virtual)
    ensures state.signature == Get(v, p) && Agrees(state, Get(Docs(v, unreadable), p))
  {
    if p !in v then Virtual(None, false, false, "")
    else if p in unreadable then Virtual(Some(v[p]), true, false, "")
    else Virtual(Some(v[p]), true, true, Read(v[p]))
  }

  /** The state and row that one change produces, or a refusal. */
  function PrepareOne(state: Virtual, c: Change): (r: Option<(Virtual, Row)>)
    ensures r.Some? ==> r.value.1.path == c.path && r.value.1.signature == state.signature
    ensures r.Some? ==> r.value.0.signature == state.signature
    ensures r.Some? ==> After(r.value.1) == if r.value.0.present then Some(r.value.0.content) else None
    ensures r.Some? && r.value.0.present ==> r.value.0.loaded
  {
    match c
    case Write(p, content) =>
      Some((state.(present := true, loaded := true, content := content),
            Row(p, if state.present then Update else Create, content, state.signature)))
    case Replace(p, find, replacement, count) =>
      if !state.present || find == "" || count < 0 || !state.loaded || Occurrences(state.content, find) == 0 then None
      else
        var content := Substitute(state.content, find, replacement, Used(state.content, find, count));
        Some((state.(content := content), Row(p, Update, content, state.signature)))
    case Remove(p) =>
      if !state.present then None
      else Some((state.(present := false, loaded := true, content := ""), Row(p, Delete, "", state.signature)))
  }

  /** A change is refused exactly where the reference refuses it, and changes one document alike. */
  lemma PrepareOneAgrees(d: map<Path, Doc>, state: Virtual, c: Change)
    requires Agrees(state, Get(d, c.path))
    ensures PrepareOne(state, c).Some? <==> Edit(d, c).Some?
    ensures PrepareOne(state, c).Some? ==>
              && Agrees(PrepareOne(state, c).value.0, Get(Edit(d, c).value, c.path))
              && forall p :: p != c.path ==> Get(Edit(d, c).value, p) == Get(d, p)
  {
  }

  /** One prepared change realises the edited documents. */
  lemma RealisesOneMore(v: map<Path, Content>, done: seq<Change>, d: map<Path, Doc>, rows: seq<Row>,
                        c: Change, d': map<Path, Doc>, row: Row)
    requires Realises(Applied(v, rows), v, done, d)
    requires row.path == c.path && After(row) == TextOf(Get(d', c.path))
    requires forall p :: p != c.path ==> Get(d', p) == Get(d, p)
    ensures Realises(Applied(v, rows + [row]), v, done + [c], d')
    ensures Touched(done + [c]) == Touched(done) + {c.path}
  {
    assert (rows + [row])[..|rows|] == rows;
    assert (done + [c])[..|done|] == done;
    var files := Applied(v, rows);
    forall p
      ensures Get(Put(files, c.path, After(row)), p)
           == if p in Touched(done) + {c.path} then TextOf(Get(d', p)) else Get(v, p)
    {
      if p != c.path {
        assert Get(Put(files, c.path, After(row)), p) == Get(files, p);
      }
    }
  }

  /** What the loop of `_prepare_patch` knows once the changes `done` have turned `docs` into `d`. */
  ghost predicate Progress(v: map<Path, Content>, docs: map<Path, Doc>, done: seq<Change>, d: map<Path, Doc>,
                           states: map<Path, Virtual>, rows: seq<Row>)
  {
    && RowsFollow(v, done, rows)
    && StatesFollow(v, docs, d, states)
    && states.Keys == Touched(done)
    && Realises(Applied(v, rows), v, done, d)
  }

  lemma RowsOneMore(v: map<Path, Content>, done: seq<Change>, rows: seq<Row>, c: Change, row: Row)
    requires RowsFollow(v, done, rows) && row.path == c.path && row.signature == Get(v, row.path)
    ensures RowsFollow(v, done + [c], rows + [row])
  {
    var more := rows + [row];
    forall i | 0 <= i < |more|
      ensures more[i].path == (done + [c])[i].path && more[i].signature == Get(v, more[i].path)
    {
      assert i < |rows| ==> more[i] == rows[i];
    }
  }

  lemma StatesOneMore(v: map<Path, Content>, docs: map<Path, Doc>, d: map<Path, Doc>, states: map<Path, Virtual>,
                      p: Path, d': map<Path, Doc>, state': Virtual)
    requires StatesFollow(v, docs, d, states)
    requires state'.signature == Get(v, p) && Get(d', p) != Some(Opaque) && Agrees(state', Get(d', p))
    requires forall q :: q != p ==> Get(d', q) == Get(d, q)
    ensures StatesFollow(v, docs, d', states[p := state'])
  {}

  /** One prepared change keeps the bookkeeping in step with the reference. */
  lemma ProgressOneMore(v: map<Path, Content>, docs: map<Path, Doc>, done: seq<Change>, d: map<Path, Doc>,
                        states: map<Path, Virtual>, rows: seq<Row>, c: Change, d': map<Path, Doc>, state': Virtual,
                        row: Row)
    requires Progress(v, docs, done, d, states, rows)
    requires row.path == c.path && row.signature == state'.signature == Get(v, c.path)
    requires After(row) == TextOf(Get(d', c.path)) && Get(d', c.path) != Some(Opaque) && Agrees(state', Get(d', c.path))
    requires forall p :: p != c.path ==> Get(d', p) == Get(d, p)
    ensures Progress(v, docs, done + [c], d', states[c.path := state'], rows + [row])
  {
    RealisesOneMore(v, done, d, rows, c, d', row);
    RowsOneMore(v, done, rows, c, row);
    StatesOneMore(v, docs, d, states, c.path, d', state');
    assert states[c.path := state'].Keys == states.Keys + {c.path};
  }

  /** One iteration of the loop: refuse where the reference does, otherwise keep step with it. */
  method PrepareNext(changes: seq<Change>, i: nat, v: map<Path, Content>, unreadable: set<Path>,
                     states: map<Path, Virtual>, rows: seq<Row>, ghost d: map<Path, Doc>)
    returns (r: Option<(map<Path, Virtual>, seq<Row>)>, ghost d': map<Path, Doc>)
    requires i < |changes| && EditAll(Docs(v, unreadable), changes[..i]) == Some(d)
    requires Progress(v, Docs(v, unreadable), changes[..i], d, states, rows)
    ensures r.None? ==> EditAll(Docs(v, unreadable), changes).None?
    ensures r.Some? ==>
              && EditAll(Docs(v, unreadable), changes[..i + 1]) == Some(d')
              && Progress(v, Docs(v, unreadable), changes[..i + 1], d', r.value.0, r.value.1)
  {
    var c := changes[i];
    ghost var docs := Docs(v, unreadable);
    var state := if c.path in states then states[c.path] else Load(v, unreadable, c.path);
    assert Agrees(state, Get(d, c.path)) && state.signature == Get(v, c.path);
    var one := PrepareOne(state, c);
    PrepareOneAgrees(d, state, c);
    EditOneMore(docs, changes, i);
    d' := d;
    if one.None? {
      RefusedPrefix(docs, changes, i + 1);
      return None, d;
    }
    d' := Edit(d, c).value;
    ProgressOneMore(v, docs, changes[..i], d, states, rows, c, d', one.value.0, one.value.1);
    assert changes[..i + 1] == changes[..i] + [c];
    r := Some((states[c.path := one.value.0], rows + [one.value.1]));
  }

  lemma ProgressStart(v: map<Path, Content>, docs: map<Path, Doc>)
    ensures Progress(v, docs, [], docs, map[], [])
  {}

  /** `_prepare_patch`: walk the changes, keeping a virtual state per touched path. */
  method PreparePatch(changes: seq<Change>, v: map<Path, Content>, unreadable: set<Path>, folders: set<Path>)
    returns (r: Option<seq<Row>>)
    ensures r.Some? <==> Allowed(changes, folders) && EditAll(Docs(v, unreadable), changes).Some?
    ensures r.Some? ==>
              && RowsFollow(v, changes, r.value)
              && Realises(Applied(v, r.value), v, changes, EditAll(Docs(v, unreadable), changes).value)
  {
    if |changes| < 1 || |changes| > 50 { return None; }
    var rows, states: map<Path, Virtual> := [], map[];
    ghost var docs := Docs(v, unreadable);
    ghost var d := docs;
    ProgressStart(v, docs);
    assert changes[..0] == [];
    for i := 0 to |changes|
      invariant forall j :: 0 <= j < i ==> !AtFolder(changes, folders, j)
      invariant EditAll(docs, changes[..i]) == Some(d)
      invariant Progress(v, docs, changes[..i], d, states, rows)
    {
      if AtFolder(changes, folders, i) { return None; }
      var next;
      next, d := PrepareNext(changes, i, v, unreadable, states, rows, d);
      if next.None? { return None; }
      states, rows := next.value.0, next.value.1;
    }
    assert changes[..|changes|] == changes;
    return Some(rows);
  }

  // ---- one final operation per path --------------------------------------------------------------

  ghost function Paths(rows: seq<Row>): set<Path> {
    if rows == [] then {} else Paths(rows[..|rows| - 1]) + {rows[|rows| - 1].path}
  }

  lemma {:induction false} InPaths(rows: seq<Row>, p: Path)
    ensures p in Paths(rows) <==> exists i :: 0 <= i < |rows| && rows[i].path == p
  {
    if rows != [] {
      InPaths(rows[..|rows| - 1], p);
      assert p == rows[|rows| - 1].path || forall i :: 0 <= i < |rows| && rows[i].path == p ==> i < |rows| - 1;
    }
  }

  lemma PathsOverwritten(rows: seq<Row>, i: nat, row: Row)
    requires i < |rows| && rows[i].path == row.path
    ensures Paths(rows[i := row]) == Paths(rows) == Paths(rows) + {row.path}
  {
    forall p
      ensures p in Paths(rows[i := row]) <==> p in Paths(rows)
    {
      InPaths(rows, p);
      InPaths(rows[i := row], p);
      assert forall j :: 0 <= j < |rows| ==> rows[i := row][j].path == rows[j].path;
    }
    InPaths(rows, row.path);
  }

  /** Dictionary assignment: a known path keeps its place, a new one goes last. */
  function Keep(rows: seq<Row>, row: Row): (r: seq<Row>)
    requires DistinctRows(rows)
    ensures DistinctRows(r)
    ensures forall x :: x in r ==> x in rows || x == row
    ensures Paths(r) == Paths(rows) + {row.path}
  {
    assert (rows + [row])[..|rows|] == rows;
    if exists i :: 0 <= i < |rows| && rows[i].path == row.path then
      var i :| 0 <= i < |rows| && rows[i].path == row.path;
      PathsOverwritten(rows, i, row);
      rows[i := row]
    else
      rows + [row]
  }

  lemma OverwriteApplies(v: map<Path, Content>, rows: seq<Row>, i: nat, row: Row, p: Path)
    requires DistinctRows(rows) && i < |rows| && rows[i].path == row.path
    requires DistinctRows(rows[i := row])
    ensures Get(Applied(v, rows[i := row]), p) == Get(Put(Applied(v, rows), row.path, After(row)), p)
  {
    var kept := rows[i := row];
    if p == row.path {
      AppliedAt(v, kept, i);
    } else if j :| 0 <= j < |rows| && rows[j].path == p {
      assert kept[j] == rows[j];
      AppliedAt(v, kept, j);
      AppliedAt(v, rows, j);
    } else {
      AppliedElsewhere(v, kept, p);
      AppliedElsewhere(v, rows, p);
    }
  }

  /** Overwriting a row in place or appending it has the effect of applying it last. */
  lemma KeepApplies(v: map<Path, Content>, rows: seq<Row>, row: Row)
    requires DistinctRows(rows)
    ensures Applied(v, Keep(rows, row)) == Put(Applied(v, rows), row.path, After(row))
  {
    var kept := Keep(rows, row);
    if i :| 0 <= i < |rows| && rows[i].path == row.path && kept == rows[i := row] {
      forall p
        ensures Get(Applied(v, kept), p) == Get(Put(Applied(v, rows), row.path, After(row)), p)
      {
        OverwriteApplies(v, rows, i, row, p);
      }
      SameLookups(Applied(v, kept), Put(Applied(v, rows), row.path, After(row)));
    } else {
      assert kept == rows + [row];
      assert kept[..|rows|] == rows;
    }
  }

  /** Committing only the last row of each path has the effect of all rows in order. */
  method FinalOperations(rows: seq<Row>, ghost v: map<Path, Content>) returns (final: seq<Row>)
    ensures DistinctRows(final)
    ensures forall x :: x in final ==> x in rows
    ensures Paths(final) == Paths(rows)
    ensures Applied(v, final) == Applied(v, rows)
  {
    final := [];
    for i := 0 to |rows|
      invariant DistinctRows(final)
      invariant forall x :: x in final ==> x in rows
      invariant Paths(final) == Paths(rows[..i])
      invariant Applied(v, final) == Applied(v, rows[..i])
    {
      KeepApplies(v, final, rows[i]);
      assert rows[..i + 1] == rows[..i] + [rows[i]];
      assert rows[..i + 1][..i] == rows[..i];
      final := Keep(final, rows[i]);
    }
    assert rows[..|rows|] == rows;
  }

  // ---- the whole tool call -------------------------------------------------------------------------

  /** Editing looks only at the documents of the paths it touches. */
  lemma {:induction false} EditsAgree(a: map<Path, Doc>, b: map<Path, Doc>, changes: seq<Change>, paths: set<Path>)
    requires Touched(changes) <= paths && forall p :: p in paths ==> Get(a, p) == Get(b, p)
    ensures EditAll(a, changes).Some? <==> EditAll(b, changes).Some?
    ensures EditAll(a, changes).Some? ==>
              forall p :: p in paths ==> Get(EditAll(a, changes).value, p) == Get(EditAll(b, changes).value, p)
  {
    if changes != [] {
      EditsAgree(a, b, changes[..|changes| - 1], paths);
      if EditAll(a, changes[..|changes| - 1]).Some? {
        assert changes[|changes| - 1].path in paths;
      }
    }
  }

  lemma {:induction false} RowsTouch(v: map<Path, Content>, changes: seq<Change>, rows: seq<Row>)
    requires RowsFollow(v, changes, rows)
    ensures Paths(rows) == Touched(changes)
  {
    if rows != [] {
      RowsTouch(v, changes[..|changes| - 1], rows[..|rows| - 1]);
    }
  }

  /**
  Rows prepared from the files `t` and committed over the files `v` realise the edits of `v`: the
  signature check makes the two agree on every touched path.
  */
  lemma CommitRealises(t: map<Path, Content>, v: map<Path, Content>, changes: seq<Change>, unreadable: set<Path>,
                       rows: seq<Row>, final: seq<Row>)
    requires EditAll(Docs(t, unreadable), changes).Some?
    requires RowsFollow(t, changes, rows)
    requires Realises(Applied(t, rows), t, changes, EditAll(Docs(t, unreadable), changes).value)
    requires DistinctRows(final) && Paths(final) == Paths(rows) && Applied(t, final) == Applied(t, rows)
    requires PreparedFrom(final, t) && PreparedFrom(final, v)
    ensures EditAll(Docs(v, unreadable), changes).Some?
    ensures Realises(Applied(v, final), v, changes, EditAll(Docs(v, unreadable), changes).value)
  {
    RowsTouch(t, changes, rows);
    var dt, dv := Docs(t, unreadable), Docs(v, unreadable);
    forall p | p in Touched(changes)
      ensures Get(dt, p) == Get(dv, p)
    {
      InPaths(final, p);
      var i :| 0 <= i < |final| && final[i].path == p;
      assert Get(t, p) == final[i].signature == Get(v, p);
    }
    EditsAgree(dt, dv, changes, Touched(changes));
    forall p
      ensures Get(Applied(v, final), p) ==
              if p in Touched(changes) then TextOf(Get(EditAll(dv, changes).value, p)) else Get(v, p)
    {
      InPaths(final, p);
      if i :| 0 <= i < |final| && final[i].path == p {
        AppliedAt(v, final, i);
        AppliedAt(t, final, i);
        assert Get(Applied(t, rows), p) == TextOf(Get(EditAll(dt, changes).value, p));
      } else {
        AppliedElsewhere(v, final, p);
      }
    }
  }

  /** No touched path is absent both before and after the batch. */
  ghost predicate NothingVanishes(v: map<Path, Content>, changes: seq<Change>, docs: map<Path, Doc>) {
    forall p :: p in Touched(changes) ==> p in v || TextOf(Get(docs, p)).Some?
  }

  /** A batch creates and then deletes an absent path exactly when some delete has nothing to remove. */
  lemma VanishingRows(v: map<Path, Content>, changes: seq<Change>, final: seq<Row>, docs: map<Path, Doc>)
    requires DistinctRows(final) && Paths(final) == Touched(changes) && PreparedFrom(final, v)
    requires Realises(Applied(v, final), v, changes, docs)
    ensures DeletesExist(final) <==> NothingVanishes(v, changes, docs)
  {
    forall i | 0 <= i < |final|
      ensures final[i].path in Touched(changes)
      ensures final[i].kind.Delete? <==> TextOf(Get(docs, final[i].path)).None?
    {
      InPaths(final, final[i].path);
      AppliedAt(v, final, i);
    }
    forall p | p in Touched(changes)
      ensures exists i :: 0 <= i < |final| && final[i].path == p
    {
      InPaths(final, p);
    }
  }

  /** The files with the documents written at the touched paths. */
  function Written(v: map<Path, Content>, changes: seq<Change>, docs: map<Path, Doc>): map<Path, Content> {
    map p | p in v.Keys + docs.Keys && (if p in Touched(changes) then TextOf(Get(docs, p)).Some? else p in v)
      :: if p in Touched(changes) then TextOf(Get(docs, p)).value else v[p]
  }

  lemma WrittenRealises(files: map<Path, Content>, v: map<Path, Content>, changes: seq<Change>, docs: map<Path, Doc>)
    ensures Realises(Written(v, changes, docs), v, changes, docs)
    ensures Realises(files, v, changes, docs) ==> files == Written(v, changes, docs)
  {
    var written := Written(v, changes, docs);
    if Realises(files, v, changes, docs) {
      forall p ensures Get(files, p) == Get(written, p) {
        assert Get(files, p) == if p in Touched(changes) then TextOf(Get(docs, p)) else Get(v, p);
      }
      SameLookups(files, written);
    }
  }

  /** Every touched file that exists can be opened. */
  predicate AllOpen(v: map<Path, Content>, changes: seq<Change>, unreadable: set<Path>) {
    forall p :: p in Touched(changes) && p in v ==> p !in unreadable
  }

  /**
  What one call of the tool leaves of the files `v` on a quiet disk: None where it refuses, where a file to be
  changed cannot be opened, or where it rolls back because a path was created only to be deleted.
  */
  ghost function Outcome(v: map<Path, Content>, changes: seq<Change>, unreadable: set<Path>, folders: set<Path>)
    : Option<map<Path, Content>>
  {
    var docs := EditAll(Docs(v, unreadable), changes);
    if Allowed(changes, folders) && docs.Some? && AllOpen(v, changes, unreadable)
       && NothingVanishes(v, changes, docs.value)
    then Some(Written(v, changes, docs.value)) else None
  }

  /** The touched paths have the same content in both. */
  predicate SameTouched(t: map<Path, Content>, v: map<Path, Content>, changes: seq<Change>) {
    forall p :: p in Touched(changes) ==> Get(t, p) == Get(v, p)
  }

  /** The signatures still match exactly when no touched path has changed; the same files are opened then. */
  lemma SignaturesMatch(t: map<Path, Content>, v: map<Path, Content>, changes: seq<Change>, final: seq<Row>,
                        unreadable: set<Path>)
    requires Paths(final) == Touched(changes) && PreparedFrom(final, t)
    ensures PreparedFrom(final, v) <==> SameTouched(t, v, changes)
    ensures SameTouched(t, v, changes) ==> (Openable(final, unreadable) <==> AllOpen(v, changes, unreadable))
  {
    forall p | p in Touched(changes) ensures exists i :: 0 <= i < |final| && final[i].path == p {
      InPaths(final, p);
    }
    forall i | 0 <= i < |final| ensures final[i].path in Touched(changes) {
      InPaths(final, final[i].path);
    }
  }

  /** On a quiet disk the committed batch is exactly the outcome. */
  lemma OutcomeOfRows(t: map<Path, Content>, v: map<Path, Content>, changes: seq<Change>, unreadable: set<Path>,
                      folders: set<Path>, rows: seq<Row>, final: seq<Row>)
    requires Allowed(changes, folders) && EditAll(Docs(t, unreadable), changes).Some?
    requires RowsFollow(t, changes, rows)
    requires Realises(Applied(t, rows), t, changes, EditAll(Docs(t, unreadable), changes).value)
    requires DistinctRows(final) && Paths(final) == Paths(rows) && Applied(t, final) == Applied(t, rows)
    requires PreparedFrom(final, t)
    ensures PreparedFrom(final, v) <==> SameTouched(t, v, changes)
    ensures SameTouched(t, v, changes) ==>
              (Openable(final, unreadable) && DeletesExist(final) <==> Outcome(v, changes, unreadable, folders).Some?)
    ensures SameTouched(t, v, changes) && Openable(final, unreadable) && DeletesExist(final) ==>
              Outcome(v, changes, unreadable, folders) == Some(Applied(v, final))
  {
    RowsTouch(t, changes, rows);
    SignaturesMatch(t, v, changes, final, unreadable);
    if SameTouched(t, v, changes) {
      CommitRealises(t, v, changes, unreadable, rows, final);
      var docs := EditAll(Docs(v, unreadable), changes).value;
      VanishingRows(v, changes, final, docs);
      WrittenRealises(Applied(v, final), v, changes, docs);
    }
  }

  /** A call that preparation refuses has no outcome on any files that agree on the touched paths. */
  lemma RefusedHasNoOutcome(t: map<Path, Content>, v: map<Path, Content>, changes: seq<Change>, unreadable: set<Path>,
                            folders: set<Path>)
    requires !(Allowed(changes, folders) && EditAll(Docs(t, unreadable), changes).Some?)
    requires SameTouched(t, v, changes)
    ensures Outcome(v, changes, unreadable, folders).None?
  {
    EditsAgree(Docs(t, unreadable), Docs(v, unreadable), changes, Touched(changes));
  }

  /**
  The tool call. `w` is what the disk recovers to afterwards: the old files, or the files with all
  changes made one after another. On a quiet disk it succeeds exactly when no touched path differs from
  what recovery left there and the call has an outcome, which is then what is on the disk.
  */
  method ApplyPatch(disk: Disk, txn: Txn, changes: seq<Change>, unreadable: set<Path>, folders: set<Path>,
                    ghost v: map<Path, Content>)
    returns (e: Option<Exit>, ghost w: map<Path, Content>)
    requires disk.Recovers(v)
    modifies disk`targets, disk`staged, disk`journals, disk`records
    ensures disk.Recovers(w)
    ensures
      || (w == v && disk.records == old(disk.records))
      || (Outcome(v, changes, unreadable, folders) == Some(w) && disk.records == old(disk.records) + [txn])
    ensures e == Some(Done) ==> disk.Settled(w) && Outcome(v, changes, unreadable, folders) == Some(w)
    ensures disk.quiet ==>
              (e == Some(Done) <==>
                SameTouched(old(disk.targets), v, changes) && Outcome(v, changes, unreadable, folders).Some?)
  {
    ghost var t := disk.targets;
    var rows := PreparePatch(changes, disk.targets, unreadable, folders);
    if rows.None? {
      if SameTouched(t, v, changes) {
        RefusedHasNoOutcome(t, v, changes, unreadable, folders);
      }
      return None, v;
    }
    var final := FinalOperations(rows.value, t);
    forall i | 0 <= i < |final|
      ensures final[i].signature == Get(t, final[i].path)
    {
      assert final[i] in rows.value;
    }
    OutcomeOfRows(t, v, changes, unreadable, folders, rows.value, final);
    ghost var committed;
    var exit;
    exit, committed := disk.Apply(txn, final, unreadable, v);
    return Some(exit), if committed then Applied(v, final) else v;
  }

  /** Creating and deleting an absent path is prepared, but has no outcome: the call rolls back. */
  lemma CreateThenDelete(v: map<Path, Content>, p: Path, content: Text, folders: set<Path>)
    requires p !in v && p !in folders
    ensures var changes := [Write(p, content), Remove(p)];
            && Allowed(changes, folders) && EditAll(Docs(v, {}), changes) == Some(Docs(v, {}))
            && Outcome(v, changes, {}, folders).None?
            && OneByOne(v, changes) == Some(v)
  {
    var write, remove := Write(p, content), Remove(p);
    var changes, docs := [write, remove], Docs(v, {});
    assert changes[..1] == [write] && [write][..0] == [];
    assert docs[p := Readable(content)] - {p} == docs;
    assert v[p := content] - {p} == v;
    assert EditAll(docs, [write]) == Some(docs[p := Readable(content)]);
    assert EditAll(docs, changes) == Edit(docs[p := Readable(content)], remove);
    assert p in Touched(changes);
    assert OneByOne(v, [write]) == Alone(v, write) == Some(v[p := content]);
    assert OneByOne(v, changes) == Alone(v[p := content], remove);
  }

  // ---- one tool call per change --------------------------------------------------------------------

  predicate NoReturn(s: string) {
    '\r' !in s
  }

  /** The files after one change made by a call of its own. */
  function Alone(v: map<Path, Content>, c: Change): Option<map<Path, Content>> {
    var docs := Edit(Docs(v, {}), c);
    if docs.None? then None else Some(Put(v, c.path, TextOf(Get(docs.value, c.path))))
  }

  function OneByOne(v: map<Path, Content>, changes: seq<Change>): Option<map<Path, Content>> {
    if changes == [] then Some(v)
    else
      var before := OneByOne(v, changes[..|changes| - 1]);
      if before.None? then None else Alone(before.value, changes[|changes| - 1])
  }

  lemma {:induction false} ReadKeepsPlainText(raw: Content)
    requires NoReturn(raw)
    ensures Read(raw) == raw
  {
    if raw != "" {
      assert raw == [raw[0]] + raw[1..];
      ReadKeepsPlainText(raw[1..]);
    }
  }

  /** The document that change number `j` of a batch edits. */
  function Edited(docs: map<Path, Doc>, changes: seq<Change>, j: nat): Option<Doc>
    requires j < |changes|
  {
    var before := EditAll(docs, changes[..j]);
    if before.None? then None else Get(before.value, changes[j].path)
  }

  /** No replace in the batch edits text that holds a carriage return. */
  ghost predicate CleanReplaces(docs: map<Path, Doc>, changes: seq<Change>) {
    forall j :: 0 <= j < |changes| && changes[j].Replace? && TextOf(Edited(docs, changes, j)).Some? ==>
      NoReturn(TextOf(Edited(docs, changes, j)).value)
  }

  lemma {:induction false} EditsElsewhere(docs: map<Path, Doc>, changes: seq<Change>, p: Path)
    requires EditAll(docs, changes).Some? && p !in Touched(changes)
    ensures Get(EditAll(docs, changes).value, p) == Get(docs, p)
  {
    if changes != [] {
      EditsElsewhere(docs, changes[..|changes| - 1], p);
    }
  }

  /** A call of its own does what the batch does, if it reads what the batch remembers. */
  lemma AloneAgrees(w: map<Path, Content>, d: map<Path, Doc>, c: Change)
    requires Get(Docs(w, {}), c.path) == Get(d, c.path)
          || (Get(w, c.path) == TextOf(Get(d, c.path)) && (c.path in d ==> d[c.path].Readable?))
    requires c.Replace? && TextOf(Get(d, c.path)).Some? ==> NoReturn(TextOf(Get(d, c.path)).value)
    ensures Alone(w, c).Some? <==> Edit(d, c).Some?
    ensures Alone(w, c).Some? ==> Get(Alone(w, c).value, c.path) == TextOf(Get(Edit(d, c).value, c.path))
  {
    if c.path in w && c.path in d && d[c.path].Readable? && NoReturn(d[c.path].text) {
      ReadKeepsPlainText(d[c.path].text);
    }
  }

  lemma {:induction false} NeverOpaque(docs: map<Path, Doc>, changes: seq<Change>, p: Path)
    requires EditAll(docs, changes).Some? && Get(docs, p) != Some(Opaque)
    ensures Get(EditAll(docs, changes).value, p) != Some(Opaque)
  {
    if changes != [] {
      NeverOpaque(docs, changes[..|changes| - 1], p);
    }
  }

  /** One more change: alone and in the batch it is refused, or it leaves the same files. */
  lemma OneMoreAlike(v: map<Path, Content>, before: seq<Change>, c: Change, w: map<Path, Content>, d: map<Path, Doc>)
    requires EditAll(Docs(v, {}), before) == Some(d) && Realises(w, v, before, d)
    requires c.Replace? && TextOf(Get(d, c.path)).Some? ==> NoReturn(TextOf(Get(d, c.path)).value)
    ensures Alone(w, c).Some? <==> Edit(d, c).Some?
    ensures Alone(w, c).Some? ==> Realises(Alone(w, c).value, v, before + [c], Edit(d, c).value)
  {
    var docs := Docs(v, {});
    if c.path !in Touched(before) {
      EditsElsewhere(docs, before, c.path);
      assert Get(w, c.path) == Get(v, c.path);
    }
    NeverOpaque(docs, before, c.path);
    AloneAgrees(w, d, c);
    assert (before + [c])[..|before|] == before;
  }

  /**
  Unless a replace edits text with a carriage return, editing in a batch is the same as one edit per
  call: it is refused exactly when some single edit is, and it leaves the same files.
  */
  lemma {:induction false} EditsAreOneByOne(v: map<Path, Content>, changes: seq<Change>)
    requires CleanReplaces(Docs(v, {}), changes)
    ensures OneByOne(v, changes).Some? <==> EditAll(Docs(v, {}), changes).Some?
    ensures OneByOne(v, changes).Some? ==>
              Realises(OneByOne(v, changes).value, v, changes, EditAll(Docs(v, {}), changes).value)
  {
    if |changes| > 0 {
      var docs, n := Docs(v, {}), |changes| - 1;
      var before, c := changes[..n], changes[n];
      CleanBefore(docs, changes, n);
      EditsAreOneByOne(v, before);
      if OneByOne(v, before).Some? {
        var w, d := OneByOne(v, before).value, EditAll(docs, before).value;
        assert Edited(docs, changes, n) == Get(d, c.path);
        OneMoreAlike(v, before, c, w, d);
        assert changes == before + [c];
      }
    }
  }

  lemma CleanBefore(docs: map<Path, Doc>, changes: seq<Change>, n: nat)
    requires CleanReplaces(docs, changes) && n <= |changes|
    ensures CleanReplaces(docs, changes[..n])
  {
    var before := changes[..n];
    forall j | 0 <= j < n
      ensures Edited(docs, before, j) == Edited(docs, changes, j)
    {
      assert before[..j] == changes[..j];
    }
  }

  // ---- whole calls -----------------------------------------------------------------------------------

  /** The files after one call of the tool per change. */
  ghost function Calls(v: map<Path, Content>, changes: seq<Change>, folders: set<Path>): Option<map<Path, Content>> {
    if changes == [] then Some(v)
    else
      var before := Calls(v, changes[..|changes| - 1], folders);
      if before.None? then None else Outcome(before.value, [changes[|changes| - 1]], {}, folders)
  }

  /** A call with one change creates nothing only to delete it. */
  lemma SingleCall(v: map<Path, Content>, c: Change, folders: set<Path>)
    ensures Outcome(v, [c], {}, folders) == if c.path in folders then None else Alone(v, c)
  {
    var docs := Docs(v, {});
    assert [c][..0] == [] && EditAll(docs, [c]) == Edit(docs, c);
    assert Touched([c]) == {c.path};
    assert AtFolder([c], folders, 0) <==> c.path in folders;
    if Edit(docs, c).Some? {
      var after := Edit(docs, c).value;
      assert c.Remove? ==> c.path in v;
      assert !c.Remove? ==> TextOf(Get(after, c.path)).Some?;
      forall p ensures Get(Alone(v, c).value, p) == if p in Touched([c]) then TextOf(Get(after, p)) else Get(v, p) {}
      WrittenRealises(Alone(v, c).value, v, [c], after);
    }
  }

  predicate NoFolders(changes: seq<Change>, folders: set<Path>) {
    forall i :: 0 <= i < |changes| ==> !AtFolder(changes, folders, i)
  }

  lemma NoFoldersOneMore(changes: seq<Change>, folders: set<Path>, n: nat)
    requires |changes| == n + 1
    ensures NoFolders(changes, folders) <==> NoFolders(changes[..n], folders) && changes[n].path !in folders
  {
    var before := changes[..n];
    forall i | 0 <= i < n ensures AtFolder(before, folders, i) == AtFolder(changes, folders, i) {}
    assert AtFolder(changes, folders, n) <==> changes[n].path in folders;
  }

  lemma {:induction false} CallsAreOneByOne(v: map<Path, Content>, changes: seq<Change>, folders: set<Path>)
    ensures Calls(v, changes, folders) == if NoFolders(changes, folders) then OneByOne(v, changes) else None
  {
    if |changes| > 0 {
      var n := |changes| - 1;
      CallsAreOneByOne(v, changes[..n], folders);
      NoFoldersOneMore(changes, folders, n);
      if Calls(v, changes[..n], folders).Some? {
        SingleCall(Calls(v, changes[..n], folders).value, changes[n], folders);
      }
    }
  }

  /** No touched path is absent before the first call and after the last. */
  ghost predicate NothingLost(v: map<Path, Content>, changes: seq<Change>, w: map<Path, Content>) {
    forall p :: p in Touched(changes) ==> p in v || p in w
  }

  /**
  Unless a replace edits text with a carriage return, one call with all changes and one call per change
  leave the same files, except that the batch refuses more than fifty changes or none, and rolls back
  what creates a file only to delete it.
  */
  lemma BatchIsOneByOne(v: map<Path, Content>, changes: seq<Change>, folders: set<Path>)
    requires CleanReplaces(Docs(v, {}), changes)
    ensures Outcome(v, changes, {}, folders).Some? <==>
              && 1 <= |changes| <= 50 && Calls(v, changes, folders).Some?
              && NothingLost(v, changes, Calls(v, changes, folders).value)
    ensures Outcome(v, changes, {}, folders).Some? ==> Outcome(v, changes, {}, folders) == Calls(v, changes, folders)
  {
    CallsAreOneByOne(v, changes, folders);
    EditsAreOneByOne(v, changes);
    if OneByOne(v, changes).Some? {
      var w, docs := OneByOne(v, changes).value, EditAll(Docs(v, {}), changes).value;
      WrittenRealises(w, v, changes, docs);
      forall p | p in Touched(changes) ensures p in w <==> TextOf(Get(docs, p)).Some? {
        assert Get(w, p) == TextOf(Get(docs, p));
      }
    }
  }

  // ---- the converse ------------------------------------------------------------------------------------

  lemma {:induction false} ReadHasNoReturn(raw: Content)
    ensures NoReturn(Read(raw))
  {
    if raw != "" {
      if raw[0] != '\r' {
        ReadHasNoReturn(raw[1..]);
      } else if |raw| > 1 && raw[1] == '\n' {
        ReadHasNoReturn(raw[2..]);
      } else {
        ReadHasNoReturn(raw[1..]);
      }
    }
  }

  lemma NoReturnJoins(a: Text, b: Text)
    ensures NoReturn(a + b) <==> NoReturn(a) && NoReturn(b)
  {}

  /** Replacing text without carriage returns by such text neither adds nor removes one. */
  lemma {:induction false} ReturnsStay(s: Text, find: Text, replacement: Text, k: nat)
    requires find != "" && NoReturn(find) && NoReturn(replacement)
    ensures NoReturn(Substitute(s, find, replacement, k)) <==> NoReturn(s)
    decreases |s|
  {
    if k != 0 && |s| >= |find| {
      if s[..|find|] == find {
        var rest := s[|find|..];
        ReturnsStay(rest, find, replacement, k - 1);
        NoReturnJoins(find, rest);
        NoReturnJoins(replacement, Substitute(rest, find, replacement, k - 1));
        assert s == find + rest;
      } else {
        var rest := s[1..];
        ReturnsStay(rest, find, replacement, k);
        NoReturnJoins([s[0]], rest);
        NoReturnJoins([s[0]], Substitute(rest, find, replacement, k));
        assert s == [s[0]] + rest;
      }
    }
  }

  /** Find and replacement of every replace are free of carriage returns. */
  predicate PlainReplaces(changes: seq<Change>) {
    forall j :: 0 <= j < |changes| && changes[j].Replace? ==>
      NoReturn(changes[j].find) && NoReturn(changes[j].replacement)
  }

  /**
  One more replace that finds its text does the same alone and in the batch exactly on text without a
  carriage return.
  */
  lemma ReplaceAgreesExactly(w: map<Path, Content>, d: map<Path, Doc>, c: Change)
    requires c.Replace? && NoReturn(c.find) && NoReturn(c.replacement)
    requires c.path in d && d[c.path].Readable? && c.path in w && w[c.path] == d[c.path].text
    requires Edit(d, c).Some?
    ensures (Alone(w, c).Some? && Get(Alone(w, c).value, c.path) == TextOf(Get(Edit(d, c).value, c.path)))
       <==> NoReturn(d[c.path].text)
  {
    var text := d[c.path].text;
    var used := Used(text, c.find, c.count);
    ReturnsStay(text, c.find, c.replacement, used);
    ReadHasNoReturn(text);
    if NoReturn(text) {
      ReadKeepsPlainText(text);
    } else if Alone(w, c).Some? {
      var read := Read(text);
      ReturnsStay(read, c.find, c.replacement, Used(read, c.find, c.count));
    }
  }

  /** After `n` changes the single edits have left what the batch holds. */
  ghost predicate AlikeAfter(v: map<Path, Content>, changes: seq<Change>, n: nat)
    requires n <= |changes|
  {
    && OneByOne(v, changes[..n]).Some? && EditAll(Docs(v, {}), changes[..n]).Some?
    && Realises(OneByOne(v, changes[..n]).value, v, changes[..n], EditAll(Docs(v, {}), changes[..n]).value)
  }

  /** A replace that goes the same way alone and in the batch edited text without a carriage return. */
  lemma AlikeIsClean(v: map<Path, Content>, changes: seq<Change>, j: nat)
    requires j < |changes| && PlainReplaces(changes) && changes[j].Replace? && AlikeAfter(v, changes, j)
    requires AlikeAfter(v, changes, j + 1)
    ensures TextOf(Edited(Docs(v, {}), changes, j)).Some? ==> NoReturn(TextOf(Edited(Docs(v, {}), changes, j)).value)
  {
    var docs, before, c := Docs(v, {}), changes[..j], changes[j];
    assert changes[..j + 1][..j] == before && changes[..j + 1][j] == c;
    var w, d := OneByOne(v, before).value, EditAll(docs, before).value;
    assert Get(w, c.path) == if c.path in Touched(before) then TextOf(Get(d, c.path)) else Get(v, c.path);
    if TextOf(Get(d, c.path)).Some? {
      if c.path in Touched(before) {
        assert c.path in Touched(changes[..j + 1]);
        ReplaceAgreesExactly(w, d, c);
      } else {
        EditsElsewhere(docs, before, c.path);
        ReadHasNoReturn(v[c.path]);
      }
    }
  }

  /**
  For a batch that edits, with replaces free of carriage returns: batch and single calls go the same way
  after every change if and only if no replace edits text with a carriage return.
  */
  lemma AlikeExactly(v: map<Path, Content>, changes: seq<Change>)
    requires PlainReplaces(changes) && EditAll(Docs(v, {}), changes).Some?
    ensures (forall n :: 0 <= n <= |changes| ==> AlikeAfter(v, changes, n)) <==> CleanReplaces(Docs(v, {}), changes)
  {
    var docs := Docs(v, {});
    if CleanReplaces(docs, changes) {
      forall n | 0 <= n <= |changes| ensures AlikeAfter(v, changes, n) {
        CleanBefore(docs, changes, n);
        EditsAreOneByOne(v, changes[..n]);
        if EditAll(docs, changes[..n]).None? {
          RefusedPrefix(docs, changes, n);
        }
      }
    }
    if forall n :: 0 <= n <= |changes| ==> AlikeAfter(v, changes, n) {
      forall j | 0 <= j < |changes| && changes[j].Replace? && TextOf(Edited(docs, changes, j)).Some?
        ensures NoReturn(TextOf(Edited(docs, changes, j)).value)
      {
        assert AlikeAfter(v, changes, j) && AlikeAfter(v, changes, j + 1);
        AlikeIsClean(v, changes, j);
      }
    }
  }

  /** A replacement that is a carriage return can hide one: here both ways end alike. */
  lemma Coincidence(p: Path)
    ensures var docs, v, c := map[p := Readable("\n\r")], map[p := "\n\r"], Replace(p, "\n", "\r", 0);
            && Edit(docs, c) == Some(map[p := Readable("\r\r")]) && Alone(v, c) == Some(map[p := "\r\r"])
  {
    var docs, v, c := map[p := Readable("\n\r")], map[p := "\n\r"], Replace(p, "\n", "\r", 0);
    assert "\n\r"[1..] == "\r" && "\n\n"[1..] == "\n" && "\r"[1..] == "" && "\n"[1..] == "";
    assert "\n\r"[..1] == "\n" && "\n\n"[..1] == "\n" && "\r"[..1] == "\r" && "\n"[..1] == "\n";
    assert Occurrences("", "\n") == 0 && Occurrences("\r", "\n") == 0 && Occurrences("\n", "\n") == 1;
    assert Occurrences("\n\r", "\n") == 1 && Occurrences("\n\n", "\n") == 2;
    assert Substitute("\r", "\n", "\r", 0) == "\r" && Substitute("", "\n", "\r", 0) == "";
    assert Substitute("\n\r", "\n", "\r", 1) == "\r\r";
    assert Substitute("\n", "\n", "\r", 1) == "\r" && Substitute("\n\n", "\n", "\r", 2) == "\r\r";
    assert Read("\r") == "\n" && Read("\n\r") == "\n\n";
    assert Docs(v, {}) == map[p := Readable("\n\n")];
    assert docs[p := Readable("\r\r")] == map[p := Readable("\r\r")];
    assert v[p := "\r\r"] == map[p := "\r\r"];
  }

  /** With a carriage return it is not: the second call reads back a line feed. */
  lemma CarriageReturnsDiffer(p: Path)
    ensures var changes := [Write(p, "a\r"), Replace(p, "a", "b", 0)];
            && EditAll(map[], changes) == Some(map[p := Readable("b\r")])
            && OneByOne(map[], changes) == Some(map[p := "b\n"])
  {
    var write, replace := Write(p, "a\r"), Replace(p, "a", "b", 0);
    var changes := [write, replace];
    assert changes[..1] == [write] && [write][..0] == [];
    OneReplaced('\r');
    OneReplaced('\n');
    ReadsBack();
    assert Docs(map[p := "a\r"], {}) == map[p := Readable("a\n")];
    assert EditAll(map[], [write]) == Some(map[p := Readable("a\r")]);
    assert OneByOne(map[], [write]) == Some(map[p := "a\r"]);
    assert EditAll(map[], changes) == Edit(map[p := Readable("a\r")], replace);
    assert OneByOne(map[], changes) == Alone(map[p := "a\r"], replace);
    assert map[p := Readable("a\r")][p := Readable("b\r")] == map[p := Readable("b\r")];
    assert map[p := "a\r"][p := "b\n"] == map[p := "b\n"];
  }

  lemma OneReplaced(end: char)
    requires end != 'a'
    ensures Occurrences(['a', end], "a") == 1 && Substitute(['a', end], "a", "b", 1) == ['b', end]
  {
    assert ['a', end][1..] == [end] && [end][1..] == [] && [end][..1] == [end];
    assert Occurrences([], "a") == 0;
    assert Occurrences([end], "a") == 0;
    assert "b" + [end] == ['b', end];
  }

  lemma ReadsBack()
    ensures Read("a\r") == "a\n"
  {
    assert "a\r"[1..] == "\r" && "\r"[1..] == "";
    assert Read("\r") == "\n";
  }
}
