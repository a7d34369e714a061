/**
The file-patch transaction of `backend/builtin_tools.py` and its rollback journal.

The disk is a class whose operations either finish, raise, or are cut short by a crash of the
process. A crash skips every exception handler, so whatever an operation left behind is what the
next process finds. Renames and journal replacement are atomic; writes and copies can be cut short
with any content in the file. SHA-256 digests are modelled as the content they identify.
*/
module PatchJournal {
  import opened Common

  /** A normalised path; nothing here looks inside one. */
  type Path(==, !new, 0)
  type Content = string
  type Txn = nat

  datatype Kind = Create | Update | Delete
  datatype Phase = Preparing | Committing | Committed

  /** One final operation per path, as `_prepare_patch` hands it over. */
  datatype Row = Row(path: Path, kind: Kind, content: Content, signature: Option<Content>)

  /** One operation as the journal records it; `original` stands for existence and digest. */
  datatype Item = Item(path: Path, kind: Kind, original: Option<Content>)

  datatype Document = Document(phase: Phase, applied: nat, items: seq<Item>)

  /** Files the transaction creates beside its targets. Scratch files are not named in the journal. */
  datatype Slot = Candidate(txn: Txn, index: nat) | Backup(txn: Txn, index: nat) | Scratch(serial: nat)

  datatype Fault = OsFault | FileChanged | Cancelled | EvidenceIncomplete | StartupRecovery | RollbackPending

  /** How an operation ended: finished, raised an exception, or the process died. */
  datatype Exit = Done | Raised(fault: Fault) | Crashed

  ghost predicate DistinctRows(rows: seq<Row>) {
    forall i, j :: 0 <= i < j < |rows| ==> rows[i].path != rows[j].path
  }

  ghost predicate DistinctItems(items: seq<Item>) {
    forall i, j :: 0 <= i < j < |items| ==> items[i].path != items[j].path
  }

  /** What a row leaves at its path. */
  function After(row: Row): Option<Content> {
    if row.kind.Delete? then None else Some(row.content)
  }

  /** The abstract effect of a whole batch on the files. */
  function Applied(v: map<Path, Content>, rows: seq<Row>): map<Path, Content> {
    if rows == [] then v
    else Put(Applied(v, rows[..|rows| - 1]), rows[|rows| - 1].path, After(rows[|rows| - 1]))
  }

  lemma {:induction false} AppliedElsewhere(v: map<Path, Content>, rows: seq<Row>, p: Path)
    requires forall i :: 0 <= i < |rows| ==> rows[i].path != p
    ensures Get(Applied(v, rows), p) == Get(v, p)
  {
    if rows != [] {
      AppliedElsewhere(v, rows[..|rows| - 1], p);
    }
  }

  /** A batch without repeated paths leaves every row's outcome at its path. */
  lemma {:induction false} AppliedAt(v: map<Path, Content>, rows: seq<Row>, i: nat)
    requires DistinctRows(rows) && i < |rows|
    ensures Get(Applied(v, rows), rows[i].path) == After(rows[i])
  {
    if i < |rows| - 1 {
      AppliedAt(v, rows[..|rows| - 1], i);
    }
  }

  /** The journal items of a batch whose signatures were just found unchanged. */
  function ItemsOf(rows: seq<Row>): (items: seq<Item>)
    ensures |items| == |rows|
    ensures forall i :: 0 <= i < |rows| ==> items[i] == Item(rows[i].path, rows[i].kind, rows[i].signature)
  {
    seq(|rows|, i requires 0 <= i < |rows| => Item(rows[i].path, rows[i].kind, rows[i].signature))
  }

  /** The journal names this slot. */
  predicate Names(txn: Txn, items: seq<Item>, s: Slot) {
    match s
    case Candidate(t, i) => t == txn && i < |items| && !items[i].kind.Delete?
    case Backup(t, i) => t == txn && i < |items| && items[i].original.Some?
    case Scratch(_) => false
  }

  /** The original of one item survives in the target or in a complete backup. */
  ghost predicate Evidence(targets: map<Path, Content>, staged: map<Slot, Content>, txn: Txn, items: seq<Item>, i: nat)
    requires i < |items|
  {
    items[i].original.Some? ==>
      Get(targets, items[i].path) == items[i].original || Get(staged, Backup(txn, i)) == items[i].original
  }

  /** An uncommitted journal from which the files `v` can be restored. */
  ghost predicate Restorable(targets: map<Path, Content>, staged: map<Slot, Content>, txn: Txn, items: seq<Item>,
                             v: map<Path, Content>)
  {
    && DistinctItems(items)
    && (forall i :: 0 <= i < |items| ==> items[i].original == Get(v, items[i].path))
    && (forall i :: 0 <= i < |items| ==> Evidence(targets, staged, txn, items, i))
    && (forall p :: (forall i :: 0 <= i < |items| ==> items[i].path != p) ==> Get(targets, p) == Get(v, p))
  }

  /** The restore loop is finished once every listed path holds its original again. */
  lemma RestoredAll(targets: map<Path, Content>, staged: map<Slot, Content>, txn: Txn, items: seq<Item>,
                    v: map<Path, Content>)
    requires Restorable(targets, staged, txn, items, v)
    requires forall i :: 0 <= i < |items| ==> Get(targets, items[i].path) == items[i].original
    ensures targets == v
  {
    forall p
      ensures Get(targets, p) == Get(v, p)
    {
      if i :| 0 <= i < |items| && items[i].path == p {
        assert Get(targets, items[i].path) == items[i].original;
      }
    }
    SameLookups(targets, v);
  }

  /** Candidates of the rows from `k` on and all backups are complete. */
  ghost predicate Staged(staged: map<Slot, Content>, txn: Txn, rows: seq<Row>, k: nat) {
    && (forall i :: k <= i < |rows| && !rows[i].kind.Delete? ==>
          Get(staged, Candidate(txn, i)) == Some(rows[i].content))
    && (forall i :: 0 <= i < |rows| && rows[i].signature.Some? ==> Get(staged, Backup(txn, i)) == rows[i].signature)
  }

  /** The first `k` rows are in place, the others untouched, and every backup is complete. */
  ghost predicate Halfway(targets: map<Path, Content>, staged: map<Slot, Content>, txn: Txn, rows: seq<Row>, k: nat,
                          v: map<Path, Content>)
  {
    && DistinctRows(rows)
    && PreparedFrom(rows, v)
    && (forall i :: 0 <= i < |rows| ==>
          Get(targets, rows[i].path) == if i < k then After(rows[i]) else rows[i].signature)
    && (forall p :: (forall i :: 0 <= i < |rows| ==> rows[i].path != p) ==> Get(targets, p) == Get(v, p))
    && (forall s :: s in staged ==> s.Scratch? || Names(txn, ItemsOf(rows), s))
    && Staged(staged, txn, rows, k)
  }

  /** Renaming the candidate or removing the target moves the commit forward by one row. */
  lemma Advance(targets: map<Path, Content>, staged: map<Slot, Content>, txn: Txn, rows: seq<Row>, k: nat,
                v: map<Path, Content>, targets': map<Path, Content>, staged': map<Slot, Content>)
    requires k < |rows| && Halfway(targets, staged, txn, rows, k, v)
    requires targets' == Put(targets, rows[k].path, After(rows[k]))
    requires staged' == if rows[k].kind.Delete? then staged else staged - {Candidate(txn, k)}
    ensures Halfway(targets', staged', txn, rows, k + 1, v)
  {
    forall i | k + 1 <= i < |rows| && !rows[i].kind.Delete?
      ensures Get(staged', Candidate(txn, i)) == Some(rows[i].content)
    {
      assert Get(staged, Candidate(txn, i)) == Some(rows[i].content);
    }
    forall i | 0 <= i < |rows| && rows[i].signature.Some?
      ensures Get(staged', Backup(txn, i)) == rows[i].signature
    {
      assert Get(staged, Backup(txn, i)) == rows[i].signature;
    }
  }

  /** Every delete in the batch removes a file that was there when the batch was prepared. */
  predicate DeletesExist(rows: seq<Row>) {
    forall i :: 0 <= i < |rows| && rows[i].kind.Delete? ==> rows[i].signature.Some?
  }

  /** The rows were prepared from the files `v`. */
  ghost predicate PreparedFrom(rows: seq<Row>, v: map<Path, Content>) {
    forall i :: 0 <= i < |rows| ==> rows[i].signature == Get(v, rows[i].path)
  }

  /** The files after the batches that became durable. */
  function Replay(v: map<Path, Content>, batches: seq<seq<Row>>, durable: seq<bool>): map<Path, Content>
    requires |batches| == |durable|
  {
    if batches == [] then v
    else
      var n := |batches| - 1;
      var before := Replay(v, batches[..n], durable[..n]);
      if durable[n] then Applied(before, batches[n]) else before
  }

  /** The transactions of the durable batches. */
  function Chosen(txns: seq<Txn>, durable: seq<bool>): seq<Txn>
    requires |txns| == |durable|
  {
    if |txns| == 0 then []
    else
      var n := |txns| - 1;
      Chosen(txns[..n], durable[..n]) + if durable[n] then [txns[n]] else []
  }

  /** Every original that is still there can be opened, to be hashed and copied. */
  predicate Openable(rows: seq<Row>, unreadable: set<Path>) {
    forall i :: 0 <= i < |rows| && rows[i].signature.Some? ==> rows[i].path !in unreadable
  }

  class Disk {
    var targets: map<Path, Content>
    var staged: map<Slot, Content>
    var journals: map<Txn, Document>
    /** While set: no crash, I/O error or cancellation. */
    var quiet: bool
    /** The transactions whose committed record became durable, in that order. */
    ghost var records: seq<Txn>

    /**
    The durable state recovers to `v`: if a recovery run completes from here, the files are `v`.
    At most one journal exists, and every staged file is named by it or is a scratch file.
    */
    ghost predicate Recovers(v: map<Path, Content>)
      reads this
    {
      && (forall t, u :: t in journals && u in journals ==> t == u)
      && (forall t :: t in journals ==>
            if journals[t].phase.Committed? then targets == v
            else Restorable(targets, staged, t, journals[t].items, v))
      && (journals == map[] ==> targets == v)
      && (forall s :: s in staged ==> s.Scratch? || (s.txn in journals && Names(s.txn, journals[s.txn].items, s)))
    }

    /** Nothing is pending: the files are `v` and no journal-named file is left. */
    ghost predicate Settled(v: map<Path, Content>)
      reads this
    {
      journals == map[] && targets == v && forall s :: s in staged ==> s.Scratch?
    }

    /** What a recovery run yields is fixed by the durable state alone. */
    lemma RecoveryIsDetermined(v: map<Path, Content>, w: map<Path, Content>)
      requires Recovers(v) && Recovers(w)
      ensures v == w
    {
      if txn :| txn in journals && !journals[txn].phase.Committed? {
        var items := journals[txn].items;
        forall p
          ensures Get(v, p) == Get(w, p)
        {
          if i :| 0 <= i < |items| && items[i].path == p {
            assert Get(v, p) == items[i].original == Get(w, p);
          } else {
            assert Get(v, p) == Get(targets, p) == Get(w, p);
          }
        }
        SameLookups(v, w);
      } else if journals != map[] {
        var txn :| txn in journals;
      }
    }

    // ---- operating-system operations ----------------------------------------------------------

    method WriteStaged(s: Slot, c: Content) returns (e: Exit)
      modifies this`staged
      ensures e in {Done, Raised(OsFault), Crashed}
      ensures quiet ==> e.Done?
      ensures e.Done? ==> staged == old(staged)[s := c]
      ensures forall t :: t != s ==> Get(staged, t) == Get(old(staged), t)
      ensures staged.Keys <= old(staged.Keys) + {s}
    {
      if !quiet {
        var cut: Exit := *;
        if cut in {Raised(OsFault), Crashed} { return cut; }
        var partial: Content := *;
        staged := staged[s := partial];
        var late: Exit := *;
        if late in {Raised(OsFault), Crashed} { return late; }
      }
      staged := staged[s := c];
      if !quiet {
        var crash: bool := *;
        if crash { return Crashed; }
      }
      return Done;
    }

    /** `os.replace` of a staged file over a target. */
    method RenameToTarget(s: Slot, p: Path) returns (e: Exit)
      modifies this`targets, this`staged
      ensures e in {Done, Raised(OsFault), Crashed}
      ensures quiet ==> !e.Crashed?
      ensures quiet && s in old(staged) ==> e.Done?
      ensures e.Done? ==> s in old(staged)
      ensures
        || (!e.Done? && targets == old(targets) && staged == old(staged))
        || (!e.Raised? && s in old(staged)
            && targets == old(targets)[p := old(staged)[s]] && staged == old(staged) - {s})
    {
      if s !in staged { return Raised(OsFault); }
      if !quiet {
        var cut: Exit := *;
        if cut in {Raised(OsFault), Crashed} { return cut; }
      }
      targets, staged := targets[p := staged[s]], staged - {s};
      if !quiet {
        var crash: bool := *;
        if crash { return Crashed; }
      }
      return Done;
    }

    method RemoveTarget(p: Path) returns (e: Exit)
      modifies this`targets
      ensures e in {Done, Raised(OsFault), Crashed}
      ensures quiet ==> !e.Crashed?
      ensures quiet && p in old(targets) ==> e.Done?
      ensures e.Done? ==> p in old(targets)
      ensures (!e.Done? && targets == old(targets)) || (!e.Raised? && targets == old(targets) - {p})
    {
      if p !in targets { return Raised(OsFault); }
      if !quiet {
        var cut: Exit := *;
        if cut in {Raised(OsFault), Crashed} { return cut; }
      }
      targets := targets - {p};
      if !quiet {
        var crash: bool := *;
        if crash { return Crashed; }
      }
      return Done;
    }

    method RemoveStaged(s: Slot) returns (e: Exit)
      modifies this`staged
      ensures e in {Done, Raised(OsFault), Crashed}
      ensures quiet ==> e.Done?
      ensures (!e.Done? && staged == old(staged)) || (!e.Raised? && staged == old(staged) - {s})
    {
      if !quiet {
        var cut: Exit := *;
        if cut in {Raised(OsFault), Crashed} { return cut; }
      }
      staged := staged - {s};
      if !quiet {
        var crash: bool := *;
        if crash { return Crashed; }
      }
      return Done;
    }

    /** `_write_patch_journal`: write a temporary, then replace the record in one step. */
    method PutJournal(txn: Txn, doc: Document) returns (e: Exit)
      modifies this`journals, this`records
      ensures e in {Done, Raised(OsFault), Crashed}
      ensures quiet ==> e.Done?
      ensures
        || (!e.Done? && journals == old(journals) && records == old(records))
        || (!e.Raised? && journals == old(journals)[txn := doc]
            && records == old(records) + if doc.phase.Committed? then [txn] else [])
    {
      if !quiet {
        var cut: Exit := *;
        if cut in {Raised(OsFault), Crashed} { return cut; }
      }
      journals := journals[txn := doc];
      records := records + if doc.phase.Committed? then [txn] else [];
      if !quiet {
        var crash: bool := *;
        if crash { return Crashed; }
      }
      return Done;
    }

    method DropJournal(txn: Txn) returns (e: Exit)
      modifies this`journals
      ensures e in {Done, Raised(OsFault), Crashed}
      ensures quiet ==> e.Done?
      ensures (!e.Done? && journals == old(journals)) || (!e.Raised? && journals == old(journals) - {txn})
    {
      if !quiet {
        var cut: Exit := *;
        if cut in {Raised(OsFault), Crashed} { return cut; }
      }
      journals := journals - {txn};
      if !quiet {
        var crash: bool := *;
        if crash { return Crashed; }
      }
      return Done;
    }

    // ---- recovery -----------------------------------------------------------------------------

    /** Remove one journal-named file if it is there, remembering a failure instead of stopping. */
    method Sweep(s: Slot, failed: bool) returns (crashed: bool, failed': bool)
      modifies this`staged
      ensures staged == old(staged) || staged == old(staged) - {s}
      ensures !crashed && !failed' ==> !failed && s !in staged
      ensures quiet && !failed ==> !crashed && !failed'
    {
      crashed, failed' := false, failed;
      if s in staged {
        var e := RemoveStaged(s);
        crashed := e.Crashed?;
        failed' := failed || e.Raised?;
      }
    }

    /** `_cleanup_patch_journal`: the journal goes last, and stays if any removal failed. */
    method Cleanup(txn: Txn, doc: Document, ghost v: map<Path, Content>) returns (e: Exit)
      requires Recovers(v) && txn in journals && journals[txn] == doc && targets == v
      modifies this`staged, this`journals
      ensures Recovers(v) && journals.Keys <= old(journals).Keys
      ensures txn in journals ==> journals[txn] == doc
      ensures e in {Done, Raised(OsFault), Crashed}
      ensures e.Done? ==> Settled(v)
      ensures e.Raised? ==> txn in journals
      ensures quiet ==> e.Done?
    {
      var failed := false;
      for i := 0 to |doc.items|
        invariant journals == old(journals) && Recovers(v)
        invariant quiet ==> !failed
        invariant !failed ==> forall s :: s in staged && !s.Scratch? ==> i <= s.index
      {
        var crashed: bool;
        if !doc.items[i].kind.Delete? {
          crashed, failed := Sweep(Candidate(txn, i), failed);
          if crashed { return Crashed; }
        }
        if doc.items[i].original.Some? {
          crashed, failed := Sweep(Backup(txn, i), failed);
          if crashed { return Crashed; }
        }
      }
      if failed { return Raised(OsFault); }
      e := DropJournal(txn);
      assert journals == old(journals) || journals == map[];
    }

    /** One iteration of `_restore_patch_journal`. */
    method RestoreItem(txn: Txn, i: nat, item: Item) returns (e: Exit)
      modifies this`targets, this`staged
      ensures e in {Done, Raised(OsFault), Crashed, Raised(EvidenceIncomplete)}
      ensures e == Raised(EvidenceIncomplete) <==>
              item.original.Some? && Get(old(targets), item.path) != item.original
              && Get(old(staged), Backup(txn, i)) != item.original
      ensures e.Done? ==> Get(targets, item.path) == item.original
      ensures forall p :: p != item.path ==> Get(targets, p) == Get(old(targets), p)
      ensures Get(targets, item.path) == item.original || targets == old(targets)
      ensures forall s: Slot :: !s.Scratch? ==> Get(staged, s) == Get(old(staged), s)
      ensures quiet && e != Raised(EvidenceIncomplete) ==> e.Done?
    {
      if item.original.Some? {
        var backupValid := Get(staged, Backup(txn, i)) == item.original;
        var targetValid := Get(targets, item.path) == item.original;
        if !backupValid && !targetValid {
          return Raised(EvidenceIncomplete);
        }
        if backupValid && !targetValid {
          var serial: nat := *;
          e := WriteStaged(Scratch(serial), staged[Backup(txn, i)]);
          if e.Done? {
            e := RenameToTarget(Scratch(serial), item.path);
          }
          if e.Raised? && Scratch(serial) in staged {
            var swept := RemoveStaged(Scratch(serial));
            if swept.Crashed? { return Crashed; }
          }
          return;
        }
      } else if item.path in targets {
        e := RemoveTarget(item.path);
        return;
      }
      return Done;
    }

    /** `_restore_patch_journal`: put the originals back in reverse order, then clean up. */
    method Restore(txn: Txn, doc: Document, ghost v: map<Path, Content>) returns (e: Exit)
      requires Recovers(v) && txn in journals && journals[txn] == doc && !doc.phase.Committed?
      modifies this`targets, this`staged, this`journals
      ensures Recovers(v) && journals.Keys <= old(journals).Keys
      ensures txn in journals ==> journals[txn] == doc
      ensures e in {Done, Raised(OsFault), Crashed}
      ensures e.Done? ==> Settled(v)
      ensures e.Raised? ==> txn in journals
      ensures quiet ==> e.Done?
    {
      for i := |doc.items| downto 0
        invariant journals == old(journals) && Recovers(v)
        invariant forall j :: i <= j < |doc.items| ==> Get(targets, doc.items[j].path) == doc.items[j].original
      {
        ghost var before, slots := targets, staged;
        assert Evidence(targets, staged, txn, doc.items, i);
        e := RestoreItem(txn, i, doc.items[i]);
        forall j | 0 <= j < |doc.items|
          ensures Evidence(targets, staged, txn, doc.items, j)
        {
          assert Evidence(before, slots, txn, doc.items, j);
          assert Get(staged, Backup(txn, j)) == Get(slots, Backup(txn, j));
        }
        if !e.Done? { return; }
      }
      RestoredAll(targets, staged, txn, doc.items, v);
      e := Cleanup(txn, doc, v);
    }

    /** `_recover_patch_journal`. */
    method RecoverJournal(txn: Txn, ghost v: map<Path, Content>) returns (e: Exit)
      requires Recovers(v) && txn in journals
      modifies this`targets, this`staged, this`journals
      ensures Recovers(v) && journals.Keys <= old(journals).Keys
      ensures txn in journals ==> journals[txn] == old(journals)[txn]
      ensures e in {Done, Raised(OsFault), Crashed}
      ensures e.Done? ==> Settled(v)
      ensures e.Raised? ==> txn in journals
      ensures quiet ==> e.Done?
    {
      var doc := journals[txn];
      if doc.phase.Committed? {
        e := Cleanup(txn, doc, v);
      } else {
        e := Restore(txn, doc, v);
      }
    }

    /** `_recover_patch_transactions`: every journal file, in some listing order. */
    method RecoverAll(ghost v: map<Path, Content>) returns (e: Exit)
      requires Recovers(v)
      modifies this`targets, this`staged, this`journals
      ensures Recovers(v) && journals.Keys <= old(journals).Keys
      ensures forall t :: t in journals ==> journals[t] == old(journals)[t]
      ensures e in {Done, Raised(OsFault), Crashed}
      ensures e.Done? ==> Settled(v)
      ensures quiet ==> e.Done?
    {
      var names := journals.Keys;
      while names != {}
        invariant Recovers(v) && names == journals.Keys <= old(journals).Keys
        invariant forall t :: t in journals ==> journals[t] == old(journals)[t]
        decreases names
      {
        var txn :| txn in names;
        e := RecoverJournal(txn, v);
        if !e.Done? { return; }
        names := names - {txn};
        assert names == {};
      }
      assert journals == map[];
      return Done;
    }

    // ---- the transaction ----------------------------------------------------------------------

    /** The signature checks before staging, after staging and before each commit step. */
    method Unchanged(rows: seq<Row>) returns (same: bool)
      ensures same ==> forall i :: 0 <= i < |rows| ==> Get(targets, rows[i].path) == rows[i].signature
      ensures quiet && !same ==> exists i :: 0 <= i < |rows| && Get(targets, rows[i].path) != rows[i].signature
    {
      for i := 0 to |rows|
        invariant forall j :: 0 <= j < i ==> Get(targets, rows[j].path) == rows[j].signature
      {
        if Get(targets, rows[i].path) != rows[i].signature { return false; }
        if !quiet {
          var touched: bool := *;
          if touched { return false; }
        }
      }
      return true;
    }

    /** A journal in which every target is still untouched, before or during staging. */
    ghost predicate Staging(txn: Txn, rows: seq<Row>, v: map<Path, Content>)
      reads this
    {
      && DistinctRows(rows)
      && targets == v
      && journals == map[txn := Document(Preparing, 0, ItemsOf(rows))]
      && PreparedFrom(rows, v)
      && (forall s :: s in staged ==> s.Scratch? || Names(txn, ItemsOf(rows), s))
    }

    method Stage(txn: Txn, rows: seq<Row>, ghost v: map<Path, Content>) returns (e: Exit)
      requires Staging(txn, rows, v)
      modifies this`staged
      ensures Staging(txn, rows, v)
      ensures e in {Done, Raised(OsFault), Crashed}
      ensures e.Done? ==> Staged(staged, txn, rows, 0)
      ensures quiet ==> e.Done?
    {
      for k := 0 to |rows|
        invariant Staging(txn, rows, v)
        invariant forall i :: 0 <= i < k && !rows[i].kind.Delete? ==>
                    Get(staged, Candidate(txn, i)) == Some(rows[i].content)
        invariant forall i :: 0 <= i < k && rows[i].signature.Some? ==>
                    Get(staged, Backup(txn, i)) == rows[i].signature
      {
        if !rows[k].kind.Delete? {
          e := WriteStaged(Candidate(txn, k), rows[k].content);
          if !e.Done? { return; }
        }
        if rows[k].signature.Some? {
          e := WriteStaged(Backup(txn, k), targets[rows[k].path]);
          if !e.Done? { return; }
        }
      }
      return Done;
    }

    ghost predicate Committing(txn: Txn, rows: seq<Row>, k: nat, v: map<Path, Content>)
      reads this
    {
      && journals.Keys == {txn} && journals[txn].phase.Committing? && journals[txn].items == ItemsOf(rows)
      && Halfway(targets, staged, txn, rows, k, v)
    }

    /** Whatever part of the commit has happened, the originals can be restored. */
    lemma CommittingRecovers(txn: Txn, rows: seq<Row>, k: nat, v: map<Path, Content>)
      requires Committing(txn, rows, k, v)
      ensures Recovers(v)
    {
      var items := ItemsOf(rows);
      forall i | 0 <= i < |items|
        ensures Evidence(targets, staged, txn, items, i)
      {
        assert rows[i].signature.Some? ==> Get(staged, Backup(txn, i)) == rows[i].signature;
      }
      forall p | forall i :: 0 <= i < |items| ==> items[i].path != p
        ensures Get(targets, p) == Get(v, p)
      {
        assert forall i :: 0 <= i < |rows| ==> rows[i].path == items[i].path;
      }
    }

    /** When the loop is over, the targets are exactly the effect of the batch. */
    lemma CommitComplete(txn: Txn, rows: seq<Row>, v: map<Path, Content>)
      requires Committing(txn, rows, |rows|, v)
      ensures targets == Applied(v, rows)
    {
      forall p
        ensures Get(targets, p) == Get(Applied(v, rows), p)
      {
        if i :| 0 <= i < |rows| && rows[i].path == p {
          AppliedAt(v, rows, i);
        } else {
          AppliedElsewhere(v, rows, p);
        }
      }
      SameLookups(targets, Applied(v, rows));
    }

    /** One step of the commit loop: rename the candidate or remove the target, then record progress. */
    method CommitOne(txn: Txn, rows: seq<Row>, k: nat, ghost v: map<Path, Content>) returns (e: Exit)
      requires k < |rows| && Committing(txn, rows, k, v)
      modifies this`targets, this`staged, this`journals, this`records
      ensures records == old(records)
      ensures e in {Done, Raised(OsFault), Raised(FileChanged), Raised(Cancelled), Crashed}
      ensures Committing(txn, rows, k, v) || Committing(txn, rows, k + 1, v)
      ensures e.Done? ==> Committing(txn, rows, k + 1, v) && !(rows[k].kind.Delete? && rows[k].signature.None?)
      ensures quiet ==> !e.Crashed? && (e.Done? <==> !(rows[k].kind.Delete? && rows[k].signature.None?))
    {
      if !quiet {
        var cancelled: bool := *;
        if cancelled { return Raised(Cancelled); }
      }
      var same := Unchanged([rows[k]]);
      if !same { return Raised(FileChanged); }
      ghost var t, g := targets, staged;
      if rows[k].kind.Delete? {
        e := RemoveTarget(rows[k].path);
      } else {
        assert Get(staged, Candidate(txn, k)) == Some(rows[k].content);
        e := RenameToTarget(Candidate(txn, k), rows[k].path);
      }
      if e.Done? || targets != t || staged != g {
        Advance(t, g, txn, rows, k, v, targets, staged);
      }
      if !e.Done? { return; }
      e := PutJournal(txn, journals[txn].(applied := k + 1));
    }

    /** The commit loop; wherever it stops, the originals can be restored. */
    method CommitAll(txn: Txn, rows: seq<Row>, ghost v: map<Path, Content>) returns (e: Exit, ghost done: nat)
      requires Committing(txn, rows, 0, v)
      modifies this`targets, this`staged, this`journals, this`records
      ensures records == old(records)
      ensures e in {Done, Raised(OsFault), Raised(FileChanged), Raised(Cancelled), Crashed}
      ensures Committing(txn, rows, done, v)
      ensures e.Done? ==> done == |rows| && DeletesExist(rows)
      ensures quiet ==> !e.Crashed? && (e.Done? <==> DeletesExist(rows))
    {
      done := 0;
      for k := 0 to |rows|
        invariant done == k && Committing(txn, rows, k, v) && records == old(records)
        invariant DeletesExist(rows[..k])
      {
        e := CommitOne(txn, rows, k, v);
        if Committing(txn, rows, k + 1, v) {
          done := k + 1;
        }
        if !e.Done? { return; }
      }
      return Done, done;
    }

    /** The `try` block: stage, recheck, commit, record the commit, clean up. */
    method Transact(txn: Txn, rows: seq<Row>, ghost v: map<Path, Content>) returns (e: Exit, ghost committed: bool)
      requires Staging(txn, rows, v)
      modifies this`targets, this`staged, this`journals, this`records
      ensures records == old(records) + if committed then [txn] else []
      ensures e in {Done, Raised(OsFault), Raised(FileChanged), Raised(Cancelled), Crashed}
      ensures Recovers(if committed then Applied(v, rows) else v)
      ensures txn in journals ==> (committed <==> journals[txn].phase.Committed?)
      ensures committed ==> DeletesExist(rows)
      ensures e.Done? ==> committed && Settled(Applied(v, rows))
      ensures e.Raised? ==> txn in journals
      ensures quiet ==> !e.Crashed? && (e.Done? <==> DeletesExist(rows)) && (committed <==> e.Done?)
    {
      committed := false;
      StagingRecovers(txn, rows, v);
      e := Stage(txn, rows, v);
      StagingRecovers(txn, rows, v);
      if !e.Done? { return; }
      var same := Unchanged(rows);
      if !same { return Raised(FileChanged), false; }
      e, committed := Commit(txn, rows, v);
    }

    /** From the committing record to the clean-up. */
    method Commit(txn: Txn, rows: seq<Row>, ghost v: map<Path, Content>) returns (e: Exit, ghost committed: bool)
      requires Staging(txn, rows, v) && Staged(staged, txn, rows, 0)
      modifies this`targets, this`staged, this`journals, this`records
      ensures records == old(records) + if committed then [txn] else []
      ensures e in {Done, Raised(OsFault), Raised(FileChanged), Raised(Cancelled), Crashed}
      ensures Recovers(if committed then Applied(v, rows) else v) && journals.Keys <= {txn}
      ensures txn in journals ==> (committed <==> journals[txn].phase.Committed?)
      ensures committed ==> DeletesExist(rows)
      ensures e.Done? ==> committed && Settled(Applied(v, rows))
      ensures e.Raised? ==> txn in journals
      ensures quiet ==> !e.Crashed? && (e.Done? <==> DeletesExist(rows)) && (committed <==> e.Done?)
    {
      committed := false;
      StagingRecovers(txn, rows, v);
      e := PutJournal(txn, journals[txn].(phase := Phase.Committing));
      if journals[txn].phase.Committing? {
        assert Committing(txn, rows, 0, v);
        CommittingRecovers(txn, rows, 0, v);
      }
      if !e.Done? { return; }
      ghost var done: nat;
      e, done := CommitAll(txn, rows, v);
      CommittingRecovers(txn, rows, done, v);
      if !e.Done? { return; }
      CommitComplete(txn, rows, v);
      e := PutJournal(txn, journals[txn].(phase := Committed));
      committed := journals[txn].phase.Committed?;
      if !e.Done? { return; }
      e := Cleanup(txn, journals[txn], Applied(v, rows));
    }

    /** Before anything is touched the journal restores to the files as they are. */
    lemma StagingRecovers(txn: Txn, rows: seq<Row>, v: map<Path, Content>)
      requires Staging(txn, rows, v)
      ensures Recovers(v)
    {
    }

    /**
    `_apply_direct_patch`. `committed` records whether the committed journal record became durable; the files of
    `unreadable` cannot be opened.
    */
    method Apply(txn: Txn, rows: seq<Row>, unreadable: set<Path>, ghost v: map<Path, Content>)
      returns (e: Exit, ghost committed: bool)
      requires Recovers(v) && DistinctRows(rows)
      modifies this`targets, this`staged, this`journals, this`records
      ensures Recovers(if committed then Applied(v, rows) else v)
      ensures records == old(records) + if committed then [txn] else []
      ensures txn !in old(journals) && txn in journals ==> (committed <==> journals[txn].phase.Committed?)
      ensures committed ==> PreparedFrom(rows, v) && Openable(rows, unreadable)
      ensures committed ==> DeletesExist(rows)
      ensures e.Done? ==> committed && Settled(Applied(v, rows))
      ensures e.Raised? && e.fault !in {StartupRecovery, RollbackPending} ==>
                Settled(if committed then Applied(v, rows) else v)
      ensures e != Raised(EvidenceIncomplete)
      ensures quiet ==> (e.Done? <==> PreparedFrom(rows, v) && Openable(rows, unreadable) && DeletesExist(rows))
      ensures quiet && !e.Done? ==> !committed && Settled(v)
    {
      committed := false;
      e := RecoverAll(v);
      if e.Raised? { return Raised(StartupRecovery), false; }
      if e.Crashed? { return; }
      var same := Unchanged(rows);
      if !same { return Raised(FileChanged), false; }
      var hashed: bool := Openable(rows, unreadable);
      if hashed && !quiet { hashed := *; }
      if !hashed { return Raised(OsFault), false; }
      e := PutJournal(txn, Document(Preparing, 0, ItemsOf(rows)));
      if txn in journals {
        assert Staging(txn, rows, v);
        StagingRecovers(txn, rows, v);
      }
      if !e.Done? { return; }
      e, committed := Transact(txn, rows, v);
      if e.Raised? {
        var r := RecoverJournal(txn, if committed then Applied(v, rows) else v);
        if r.Crashed? { return Crashed, committed; }
        if r.Raised? { return Raised(RollbackPending), committed; }
      }
    }

    /**
    A patch whose process may die anywhere, followed by recovery runs that may die anywhere too. As
    soon as one recovery run completes, all targets are the originals or all are final.
    */
    method ApplyThroughCrashes(txn: Txn, rows: seq<Row>, unreadable: set<Path>, restarts: nat,
                               ghost v: map<Path, Content>)
      returns (completed: bool, ghost committed: bool)
      requires Recovers(v) && DistinctRows(rows)
      modifies this
      ensures Recovers(if committed then Applied(v, rows) else v)
      ensures records == old(records) + if committed then [txn] else []
      ensures txn !in old(journals) && txn in journals ==> (committed <==> journals[txn].phase.Committed?)
      ensures completed ==> Settled(if committed then Applied(v, rows) else v)
    {
      var e: Exit;
      e, committed := Apply(txn, rows, unreadable, v);
      completed := e.Done?;
      for i := 0 to restarts
        invariant Recovers(if committed then Applied(v, rows) else v)
        invariant records == old(records) + if committed then [txn] else []
        invariant txn !in old(journals) && txn in journals ==> (committed <==> journals[txn].phase.Committed?)
        invariant completed ==> Settled(if committed then Applied(v, rows) else v)
      {
        quiet := *;
        e := RecoverAll(if committed then Applied(v, rows) else v);
        completed := e.Done?;
      }
    }

    /**
    Any sequence of patches, each in a process that may die anywhere: the disk always recovers to the
    durable batches applied in order, whatever became of the others.
    */
    method Session(batches: seq<seq<Row>>, txns: seq<Txn>, unreadable: nat -> set<Path>, ghost v: map<Path, Content>)
      returns (ghost durable: seq<bool>)
      requires Recovers(v) && |txns| == |batches| && forall i :: 0 <= i < |batches| ==> DistinctRows(batches[i])
      modifies this
      ensures |durable| == |batches| && Recovers(Replay(v, batches, durable))
      ensures records == old(records) + Chosen(txns, durable)
    {
      durable := [];
      for i := 0 to |batches|
        invariant |durable| == i && Recovers(Replay(v, batches[..i], durable))
        invariant records == old(records) + Chosen(txns[..i], durable)
      {
        quiet := *;
        ghost var now := Replay(v, batches[..i], durable);
        var e;
        ghost var committed;
        e, committed := Apply(txns[i], batches[i], unreadable(i), now);
        assert txns[..i + 1][..i] == txns[..i];
        assert batches[..i + 1][..i] == batches[..i] && (durable + [committed])[..i] == durable;
        durable := durable + [committed];
      }
      assert batches[..|batches|] == batches && txns[..|txns|] == txns;
    }
  }
}
