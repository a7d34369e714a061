# Verified models of the desktop agent's stateful core

This Dafny project models the parts of the application that keep durable or concurrent state, and
proves what each of them promises over every input, every sequence of events and every crash point.
`dafny verify dfyconfig.toml` checks everything.

| module | what it models |
|---|---|
| `PatchJournal` | the file-patch transaction: staging, the three-state rollback journal, commit, rollback and recovery. Every disk operation may finish, raise, or be cut by a crash; writes and copies may stop halfway, renames and journal replacement may not |
| `PatchPrepare` | turning an ordered list of changes into one final operation per path, the whole tool call, and a batch against one call per change |
| `MessageGraph`, `CausalCapture` | conversation graphs, the incremental backward walk, Kahn's ordering, and the append-only streams that certify a head's ancestry |
| `ContextViews` | frozen views as stream prefixes, the query routes, anchors and paging |
| `ContextLegacy`, `ContextSharing`, `ContextStore` | the migration of legacy views: the records that their rows become, the texts these keep, the streams that views share, and their canonical heads |
| `ContextHistory` | any history of retained records, appends, forks, captures and chat deletions over the same tables, and reading while it goes on |
| `SessionContext` | the whole capture: the certified streams written into those tables and frozen into a view |
| `BrokerReceipts`, `BrokerLedger` | the classification of every exit of a capability call, and the ledger that admits, replays, refuses, finalises and evicts calls under any interleaving of callers |
| `SupervisorLog`, `Supervisor` | the backend supervisor as the stretches of code between two awaits, in any order, and the rules its history obeys |
| `ReadCache`, `Watchers` | the versioned single-flight cache, the bounded read queue and the shared watcher registry |
| `UsageQueue` | the usage-write queue with coalesced partial usage, fences and loss attribution, and the once-only totals |
| `ReadWindow` | whole files, line windows under a line limit and a byte ceiling, and paging by `next_offset` |

Where the source changes objects in place, the model is a class whose methods follow the source's
branches and are proved against functions and predicates on values; the properties are lemmas about
those values, or invariants that every method keeps. The `Run`, `Interleave`, `Session`,
`ApplyThroughCrashes` and `ReadThroughChanges` methods quantify over whole histories.

## Assumptions that shape the statements

- **Patch.** No outside writer changes a target at any time: a rollback does not notice one that writes
  after staging, and copies the backup over what it left.
  `FileChanged` at the check stands for a file that was touched and holds what it held. No path of a batch
  is an ancestor of another; SHA-256 and file signatures stand for equal content; a replaced or removed
  directory entry is durable. `quiet` marks a stretch without crash, I/O error, such a touch or
  cancellation and is used only where success itself is promised. The file that the restore loop copies a
  backup into is not named in the journal, so "clean" means that no target and no journal-named file is
  left over. A file of `unreadable` cannot be opened throughout a call and is not listed in a leftover journal. A clean-up error after the committed record is durable raises again although the patch
  stands; `Apply` therefore states its outcome by `committed`, not by success. The ghost `records` lists
  the transactions whose committed record reached the disk, in order, also after the record is cleaned up.
- **Context index.** A message record is identified with its message, and the batches of the walk are one
  worklist taken in any order. The text index is assumed complete when its answer was not cut off. The
  version of a record is the hash of its descriptor without the head fields. A legacy row is the record it
  asks for: its view's owner, source, version and text; that a view has each source once and that texts are
  stored are the keys of the legacy tables.
- **Broker.** Receipt sinks raise ordinary exceptions only.
- **Supervisor.** Results of health probes, kills, port-file reads and process spawning, and the times
  that clocks show, are arguments, so each theorem holds for every answer.
- **Usage queue.** One event loop, before `stop`; a thread that is asked to run a write runs it.

## Properties the code does not have

- A batch that creates and then deletes an absent path is accepted and then fails when it is committed
  (`CreateThenDelete`), and so does a write or delete of an existing file that cannot be opened. `Outcome`
  says what one call leaves of the files; without faults `ApplyPatch` succeeds iff recovery left the touched
  paths as they were and the call has an outcome.
- A batch differs from one call per change when a replace edits text holding a carriage return
  (`CarriageReturnsDiffer`). `BatchIsOneByOne` compares the committed outcomes when none does: the batch
  goes through iff it has one to fifty changes, every single call does, and no touched path is absent
  before and after. Conversely, where find and replacement are free of carriage returns, one more replace
  agrees alone and in the batch iff the text holds none (`ReplaceAgreesExactly`), and over a whole batch
  the two agree after every change iff no replace edits such text (`AlikeExactly`). A replacement that is
  itself a carriage return can make them agree by coincidence (`Coincidence`).
- "May have applied" implies "was dispatched" fails exactly when a mandatory sink fails for an effectful
  or unresolved capability (`UndispatchedMayHaveApplied`).
- "Nothing is started after the last request was to stop" fails (`StopDuringStop`), and exactly so: when a
  timer requests a start although the latest request was to stop, it is the restart timer, and that stop
  was absorbed by an earlier one at work while the restart timer was armed (`TimerStartAfterStop`).
  Whenever a stop is absorbed so, the timer stays armed and starts when it fires (`AbsorbedStopThenTimer`).
  The cool-down timer never does, and spawning while `backendStopping` is set never happens.
- The exit event of an old child leaves the current record alone, but a start attempt does not: a step of
  an attempt forgets the record that is current iff it launches or gives up after a failed start
  (`AttemptStep`). In a failed start that record was adopted since the attempt's child was spawned; in a
  launch it was adopted while an old backend was being killed, or was current when that began; a start
  that finds no port record launches at once and forgets it too (`BeginAttempt`).
  `FailedStartForgetsAdopted` and `LaunchForgetsAdopted` are histories of both.
- A start request can settle with no stop requested and yet neither a record nor a child nor a timer. Of the
  steps with which an attempt returns, exactly two leave nothing: no command could be resolved, and nothing
  else was there; or readiness came after the child had left, and nothing else had come since (`AttemptStep`,
  `BeginAttempt`, `LeavesNothing`). `JoinedStartLeavesNothing` is such a history: a stop takes the child, and
  the next start joins the attempt that still waits for it.
- A migrated view need not read back its own texts. A record is stored once for an owner, source and version,
  with the text first seen, so the second of two legacy views with one such row but different texts shows and
  finds the text of the first (`SecondTextIsLost`). A row reads back its own text iff it is the text first seen
  for its key (`OwnTextExactly`), and all views do iff no two rows of one key, and no row and a record stored
  before, have different texts (`TextsSurviveExactly`, also stated by `Migrate`).
- Two legacy views with equal rows need not share a stream, because only the newest stream is compared
  (`SeparatedPrefixes`). Two views of an owner share iff no view of the owner after the first, up to the second,
  differs from what the newest stream then holds without one being a prefix of the other (`SharingStep`).
- A `get` begun after an invalidation never receives an older value, but it can receive the error of an
  older read (`OldFailureIsDelivered`): iff the answer to the call was to wait for a read of the key that
  was made before the last invalidation and still pending, and that read failed (`OldFailureExactly`).
- Following `next_offset` reproduces the text exactly when no line exceeds the byte ceiling
  (`ReadWindow.ReadByPages`, `FinishedReading`).

## Model

| member | source | states |
|---|---|---|
| PatchJournal.Disk.Apply | backend/builtin_tools.py:813-935 | whatever happens, the disk recovers to all final contents if the committed record of this transaction became durable, and to the original files if not; while its journal stands it is marked committed in exactly the first case; without faults it succeeds iff every signature still matches, every original can be opened and every delete has a file to remove, and otherwise rolls back completely |
| PatchJournal.Disk.ApplyThroughCrashes | backend/builtin_tools.py:799-935 | after a crash anywhere, followed by any number of recovery passes that may crash too, the first pass that completes leaves all targets original or all final, as the committed record became durable or not, and no journal-named file |
| PatchJournal.Disk.Session | backend/builtin_tools.py:799-935 | over any sequence of patches with crashes, the disk always recovers to the effect, in order, of exactly the batches whose committed record became durable |
| PatchJournal.Disk.RecoveryIsDetermined | backend/builtin_tools.py:783-810 | the durable state alone fixes what recovery yields |
| PatchJournal.Disk.Transact | backend/builtin_tools.py:882-927 | staging, recheck, commit and clean-up leave a disk that recovers to the final files iff the committed record is in place |
| PatchJournal.Disk.Commit | backend/builtin_tools.py:904-927 | from the committing record on: the disk recovers to the final files iff the committed record became durable; without faults that is so iff every delete has a file to remove |
| PatchJournal.Disk.Stage | backend/builtin_tools.py:884-899 | candidates and backups are complete afterwards; no target is touched, however it ends |
| PatchJournal.Disk.CommitAll | backend/builtin_tools.py:907-924 | wherever the loop stops, a prefix of the rows is in place, the rest untouched, and every backup complete |
| PatchJournal.Disk.CommitOne | backend/builtin_tools.py:907-924 | one step moves exactly one row, or nothing; a recorded count is never needed |
| PatchJournal.Disk.CommittingRecovers | backend/builtin_tools.py:735-780 | at any point of the commit each listed path that existed has its original in the target or in its backup |
| PatchJournal.Disk.CommitComplete | backend/builtin_tools.py:907-926 | when the loop ends the targets are exactly the effect of the batch |
| PatchJournal.Disk.Restore | backend/builtin_tools.py:735-780 | rollback keeps the evidence for a second rollback at every interruption, never reports incomplete evidence, and ends with the original files |
| PatchJournal.Disk.RestoreItem | backend/builtin_tools.py:737-779 | one path is put back or left; the evidence error is raised iff neither target nor backup holds the original; backups are never touched |
| PatchJournal.RestoredAll | backend/builtin_tools.py:735-780 | originals at every listed path mean the whole file state is the original one |
| PatchJournal.Advance | backend/builtin_tools.py:917-924 | renaming a candidate or removing a target turns "k rows in place" into "k+1 rows in place" |
| PatchJournal.Disk.Cleanup | backend/builtin_tools.py:704-732 | removes every journal-named file before the journal; if a removal fails the journal stays and recovery can begin again |
| PatchJournal.Disk.RecoverJournal | backend/builtin_tools.py:783-796 | committed journals are cleaned up, all others restored, without changing the journal's verdict |
| PatchJournal.Disk.RecoverAll | backend/builtin_tools.py:799-810 | a completed pass leaves no journal and the determined files |
| PatchJournal.Disk.PutJournal | backend/builtin_tools.py:676-693 | the record is replaced in one step or not at all |
| PatchJournal.AppliedAt | backend/builtin_tools.py:821-824 | with one row per path, the effect at a path is that of its row |
| PatchPrepare.ApplyPatch | backend/builtin_tools.py:537-640 | the whole call: the disk recovers to the outcome of the call, with its committed record, or to the old files without one; without faults it succeeds iff the touched paths hold what they held before a leftover journal was recovered, and the call has an outcome |
| PatchPrepare.PreparePatch | backend/builtin_tools.py:537-640 | refuses exactly where editing one change after another refuses, and its rows realise those edits |
| PatchPrepare.PrepareNext | backend/builtin_tools.py:543-639 | one iteration keeps the per-path states, rows and reference documents in step |
| PatchPrepare.PrepareOneAgrees | backend/builtin_tools.py:593-637 | write, replace and delete on the remembered state agree with the reference edit, refusals included |
| PatchPrepare.FinalOperations | backend/builtin_tools.py:821-824 | keeping only the last row of each path has the same effect as all rows in order |
| PatchPrepare.KeepApplies | backend/builtin_tools.py:821-824 | overwriting a path's row in place has the effect of applying it last |
| PatchPrepare.CommitRealises | backend/builtin_tools.py:839-924 | rows prepared from one file state and committed over another that passed the signature check realise the edits of the latter |
| PatchPrepare.VanishingRows | backend/builtin_tools.py:918-921 | every delete has a file to remove iff no touched path is absent before and after the batch |
| PatchPrepare.BatchIsOneByOne | backend/builtin_tools.py:537-640 | unless a replace edits text with a carriage return, the committed outcome of a batch is that of one call per change; it has one iff it holds 1 to 50 changes, every call has one, and no touched path is absent before and after |
| PatchPrepare.EditsAreOneByOne | backend/builtin_tools.py:543-639 | the same for the edits alone, before folders, the limit and the commit are considered: refused iff some single edit is, and the same files |
| PatchPrepare.SingleCall | backend/builtin_tools.py:537-640 | a call with one change is refused or has the outcome of that edit: it cannot create a file only to delete it |
| PatchPrepare.ReplaceAgreesExactly | backend/builtin_tools.py:565-586 | one more replace that finds its text, itself free of carriage returns, leaves the same content alone and in the batch iff the text holds none |
| PatchPrepare.AlikeExactly | backend/builtin_tools.py:565-586 | for replaces free of carriage returns, batch and single calls hold the same files after every change iff no replace edits text with a carriage return |
| PatchPrepare.Coincidence | backend/builtin_tools.py:573-574 | replacing LF by CR in "LF CR" gives "CR CR" both ways, so the restriction on the replacement is needed |
| PatchPrepare.CreateThenDelete | backend/builtin_tools.py:918-921 | writing and then deleting an absent path is prepared and has no outcome, although two single calls succeed |
| PatchPrepare.OutcomeOfRows | backend/builtin_tools.py:821-924 | the prepared rows pass the signature check iff no touched path has changed; then they can all be opened and removed iff the call has an outcome, and commit to exactly that |
| PatchPrepare.OneMoreAlike | backend/builtin_tools.py:565-586 | one more change agrees alone and in the batch, whether or not its path was touched before |
| PatchPrepare.CarriageReturnsDiffer | backend/builtin_tools.py:573-574 | a concrete batch whose result differs from one call per change |
| PatchPrepare.SubstitutePieces | backend/builtin_tools.py:625-632 | the pieces between the occurrences, joined by the searched text, are the old text and, joined by the replacement, the new one; their number is one more than the reported count |
| MessageGraph.StuckHasCycle | backend/context_capture.py:91-96 | if every pending message has a pending parent there is a cycle, for any finite graph |
| MessageGraph.OrderedHasNoCycle | backend/context_capture.py:91-99 | a list with parents first contains no cycle |
| MessageGraph.MutualIsUnsound | backend/context_capture.py:44-49 | two messages that are each other's ancestors make a head unsound |
| MessageGraph.CertifiedIsSound | backend/context_capture.py:91-100 | a certified list shows that nothing behind the head is missing or cyclic |
| MessageGraph.CertifiedStays | backend/context_capture.py:15-20 | new messages do not change what a recorded prefix certifies |
| CausalCapture.SessionIndex.Capture | backend/context_capture.py:11-102 | succeeds iff the head's ancestry is complete and acyclic; then the recorded prefix lists exactly the ancestors, each once, parents first; an old prefix is kept position for position iff the old head is an ancestor, otherwise a new stream is certified; a failure changes nothing |
| CausalCapture.SessionIndex.CaptureNew | backend/context_capture.py:74-100 | the same for a head that was not captured before, over the walk, the fork and the ordering |
| CausalCapture.SessionIndex.CaptureOrRollBack | backend/context_capture.py:74-102 | every recorded head stays certified, and a refused capture leaves no stream behind |
| CausalCapture.SessionIndex.WalkBack | backend/context_capture.py:29-72 | fails only where a message is missing; otherwise collects exactly the ancestors outside the old prefix, and reports "reached" iff it met the old head |
| CausalCapture.SessionIndex.Collect | backend/context_capture.py:74-79 | the old prefix is used iff the old head is an ancestor of the new one, when the ancestry is sound |
| CausalCapture.SessionIndex.AppendOrdered | backend/context_capture.py:90-99 | appends all pending messages, parents first and the earliest ready one next; fails iff they contain a cycle |
| CausalCapture.SessionIndex.FirstReady | backend/context_capture.py:92-96 | the chosen message is the least by time stamp and name among those without pending parents, and none is found only if none exists |
| CausalCapture.SessionIndex.Target | backend/context_capture.py:80-89 | extends the old stream in place when it ends at the prefix, forks a copy otherwise |
| CausalCapture.SessionIndex.Append | backend/context_index.py:119-123 | one record at the end of one stream |
| CausalCapture.SessionIndex.Reuse | backend/context_capture.py:15-20 | a head captured before answers with its recorded prefix and becomes the latest |
| CausalCapture.SessionIndex.Register | backend/context_capture.py:100-101 | the prefix is recorded for the head and as the latest |
| CausalCapture.SessionIndex.Receive | backend/context_capture.py:56-67 | every recorded prefix stays certified when messages arrive |
| CausalCapture.CollectedIsAncestry | backend/context_capture.py:29-72 | pending and known messages together are the whole ancestry |
| CausalCapture.MeetsAncestor | backend/context_capture.py:44-49 | if the old head is an ancestor, the walk meets it: meeting only another member would close a cycle |
| CausalCapture.OrderedIsCertified | backend/context_capture.py:90-100 | old prefix plus ordered pending messages certify the new head |
| CausalCapture.PendingCycleIsUnsound | backend/context_capture.py:93-95 | the cycle error is raised only for a head whose ancestry has a cycle |
| CausalCapture.CountsReleased | backend/context_capture.py:90-99 | the decremented in-degrees are the numbers of parents still pending |
| CausalCapture.NoneReady | backend/context_capture.py:92-96 | if nothing is ready and something is pending, the pending messages contain a cycle |
| ContextViews.Rows | backend/context_index.py:178-239 | both text routes return the first rows of the view that match, from the cursor, in ordinal order; a lookup by source returns the first rows of that source in the whole view |
| ContextViews.Candidates | backend/context_index.py:209-220 | joining candidates with the spans, ordering and cutting gives the same list as the scan |
| ContextViews.Scan | backend/context_index.py:221-239 | the span-by-span scan with its remaining limit gives the reference list |
| ContextViews.ScanSpan | backend/context_index.py:225-238 | one span extends the rows found so far as far as the limit allows |
| ContextViews.Probe | backend/context_index.py:189-208 | a candidate set that survives both bounds holds every matching record of the owner |
| ContextViews.InOrder | backend/context_index.py:215-220 | ordering joined rows by ordinal and cutting gives the reference list |
| ContextViews.Page | backend/external_context.py:264-268 | a page is the first rows from its start up to the clamped size; there is a next cursor iff more match, and what follows it completes the page; the cursor advances |
| ContextViews.IterPages | backend/external_context.py:270-277 | over tables that stay as they are, following the cursor with any page size yields every matching row once, in order |
| ContextViews.Read | backend/external_context.py:255-268 | a page from a cursor, or from a little before the first row of the source asked for; refused iff the view shows no row of that source |
| ContextViews.AnchorIsFirst | backend/external_context.py:260-263 | the anchor found is the first row of its source in the view, and none is found only if there is none |
| ContextViews.WholeView | backend/external_context.py:270-277 | without a filter that is the whole content, each record at its ordinal |
| ContextViews.ViewGrows | backend/context_index.py:119-133 | a view reads the same after any appends, forks and new streams |
| ContextViews.CutMatching | backend/external_context.py:265-268 | cutting the matches at a page boundary leaves exactly the matches after its last ordinal |
| ContextStore.Store.Migrate | backend/context_index.py:136-171 | from whatever records there are: every legacy view shows records with the owner, source and version of its rows, kind by kind, each kind in the stream placed for it; a record has the text first seen for its key, and all texts read back iff no two rows or records of one key differ in text; two views of an owner share a stream iff none between diverges; no view that existed or was migrated before changes; a new canonical head reads back the messages of the first view with that head; the latest head of a conversation is that of its last view |
| ContextLegacy.OwnTextExactly | backend/context_index.py:103-116 | a row of a migrated view reads back its own text iff that is the text first seen for its owner, source and version |
| ContextLegacy.TextsSurviveExactly | backend/context_index.py:152-153 | all migrated views read back all their texts iff no two rows of one owner, source and version have different texts, and no row differs from a record stored before |
| ContextLegacy.FirstTextIs | backend/context_index.py:109-111 | the text first seen is that of the stored record, or else that of the first row with this key in migration order |
| ContextLegacy.RetainedTransitive | backend/context_index.py:103-116 | retaining one batch of rows after another is retaining them all: every key has one record, with the text first seen, and nothing else is stored |
| ContextStore.SecondTextIsLost | backend/context_index.py:109-111 | two legacy views with a cell of one source and version but different texts: the second shows the text of the first |
| ContextSharing.SharingStep | backend/context_index.py:149-160 | one more view: every newest stream holds what the views of its owner so far leave, and two views share a stream iff no view of the owner after the first, up to the second, diverges |
| ContextSharing.KindsStep | backend/context_index.py:148-165 | placing one more kind leaves the kinds placed before, and the streams of other owners and kinds, where they are |
| ContextSharing.SeparatedPrefixes | backend/context_index.py:92-100 | two equal views with a diverging one between them do not share a stream |
| ContextStore.Store.MigrateView | backend/context_index.py:146-171 | one view, whose records are retained as needed, shows its rows; every other view keeps its spans; each kind goes into the newest stream iff that stream and the rows are prefixes of one another; the first prefix recorded for a canonical head stays, the latest one is replaced |
| ContextStore.Store.RecordHead | backend/context_index.py:167-170 | a view with a canonical watermark and messages records its prefix for the head unless one is recorded, and as the latest of its conversation |
| ContextStore.Store.MigrateSpans | backend/context_index.py:148-165 | the records of the rows are retained, the spans of the kinds that have rows are adjacent and show them, and each kind goes into the newest stream iff that and the rows are prefixes of one another |
| ContextStore.Store.MigrateKind | backend/context_index.py:149-162 | the rows become records; the newest stream is shared iff it and the rows are prefixes of one another, otherwise the rows get a stream of their own |
| ContextStore.WalkStep | backend/context_index.py:152-162 | one more row keeps the dichotomy: rows and shared stream are prefixes of one another so far, or they have diverged and the rows are alone in a new stream |
| ContextStore.HeadsStep | backend/context_index.py:169-169 | migrating one more view keeps every new head reading back the messages of the first view with that head |
| ContextStore.LatestStep | backend/context_index.py:170-170 | migrating one more view keeps the latest head of each conversation that of its last migrated view |
| ContextStore.Store.PlaceRow | backend/context_index.py:152-162 | the record of one row is stored or found by its key; then it is already in the stream, appended, or the reason for a forked stream, by comparing the key at its position |
| ContextStore.Store.Retain | backend/context_index.py:103-116 | the stored record of the row's key, whatever its text, or a new one; no key has two records |
| ContextStore.Store.Append | backend/context_index.py:119-123 | a stream grows by one record, and no other stream changes |
| ContextStore.Store.Fresh | backend/context_index.py:156-159 | a new newest stream with the copied prefix |
| ContextHistory.Index.Run | backend/external_context.py:103-193 | over any history of captures, appends, forks and deletions, a view of living chats keeps its spans and content and answers every query with the same rows; a view of a deleted chat is gone and never comes back |
| ContextHistory.Index.ReadThroughChanges | backend/external_context.py:270-277 | paging through a view while arbitrary histories run between the pages yields every matching row of the view as it was at the start, once and in order, unless a chat of the view is deleted |
| ContextHistory.Index.Freeze | backend/external_context.py:150-193 | a capture shows the certified prefixes of its owner's streams one after another and changes no other view |
| ContextHistory.Index.DeleteChat | backend/external_context.py:103-110 | exactly the chat's views, streams and records go, and exactly the texts no remaining record refers to; nothing of another chat is lost |
| ContextHistory.Index.Retain | backend/context_index.py:103-116 | the stored version of a source, whatever its text, or else a new record whose text equal texts share |
| ContextHistory.Index.IndexText | backend/external_context.py:113-117 | the key of a row with this text; no other row changes |
| ContextHistory.Index.Extend | backend/context_index.py:119-123 | one stream grows, every view stays readable |
| ContextHistory.Index.Fork | backend/context_capture.py:82-89 | a new stream with a copied prefix or none |
| ContextHistory.ViewStays | backend/context_index.py:174-239 | if nothing of the owner was lost and streams only grew, the view shows the same records and answers every query alike |
| ContextHistory.MatchesStay | backend/context_index.py:225-238 | unchanged records with unchanged texts match alike |
| ContextViews.SpanAdded | backend/context_index.py:131-133 | a span placed at the end of a view extends it by the prefix it names |
| SessionContext.Service.Capture | backend/external_context.py:150-193 | a view is published iff the head's ancestry is complete and acyclic; it begins with the records of exactly the head's ancestors, each once, parents first; no other view changes |
| SessionContext.Service.CaptureForEver | backend/external_context.py:150-193 | whatever is retained, extended, forked, captured or deleted elsewhere afterwards, and whatever messages arrive, the view still begins so, until its own chat is deleted |
| SessionContext.Service.Sync | backend/context_capture.py:90-101 | every certified stream stands record by record in a table stream of its own, and nothing in the tables is lost |
| BrokerReceipts.FinalReceipt | backend/capability_broker.py:598-642 | on every exit no receipt is both retryable and may-have-applied; retryable means undispatched or pure or read; a lost outcome of a dispatched effectful call is needs-reconciliation; and the exact condition for may-have-applied |
| BrokerReceipts.UndispatchedMayHaveApplied | backend/capability_broker.py:605-642 | an undispatched call is reported as possibly applied iff a mandatory sink failed for an effectful or unresolved capability, with an example |
| BrokerLedger.AtMostOneDispatch | backend/capability_broker.py:992-1049 | two dispatches of a key have an eviction of it between them, in any history |
| BrokerLedger.AtMostOneTerminal | backend/capability_broker.py:643-655 | two terminal entries of a key have an eviction of it between them |
| BrokerLedger.DoneWasFinal | backend/capability_broker.py:643-649 | a key that is done was finalised with exactly that receipt and not evicted since |
| BrokerLedger.ReplayReturnsRetained | backend/capability_broker.py:993-1005 | a replay returns the receipt of the retained terminal entry, marked as deduplicated |
| BrokerLedger.Broker.Admit | backend/capability_broker.py:992-1049 | a free key is admitted; an in-flight or differently fingerprinted one is refused; a terminal one with the same fingerprint is replayed; refusals and replays change nothing |
| BrokerLedger.Broker.Dispatch | backend/capability_broker.py:1144-1156 | the handler is entered once for an owned admission |
| BrokerLedger.Broker.Finalize | backend/capability_broker.py:643-655 | the admission becomes terminal, every in-flight admission stays, and the terminal entries are the most recently finalised keys up to the capacity, in that order |
| BrokerLedger.Broker.EvictSurplus | backend/capability_broker.py:650-655 | only the oldest terminal entries go |
| BrokerLedger.Broker.End | backend/capability_broker.py:1062-1370 | every exit path ends its admission once, with the receipt of its stage |
| BrokerLedger.Broker.Unwind | backend/capability_broker.py:953-983 | an exception that escapes an owned call finalises it iff no exit did before |
| BrokerLedger.Broker.Interleave | backend/capability_broker.py:942-1370 | all invariants hold after any interleaving of callers |
| BrokerLedger.FinalSound | backend/capability_broker.py:643-655 | finalising keeps ledger, calls and history consistent |
| BrokerLedger.EvictSound | backend/capability_broker.py:650-655 | evicting the oldest terminal entry keeps them consistent |
| BrokerLedger.LastOfLast | backend/capability_broker.py:650-655 | dropping from the front after each finalisation keeps exactly the last ones of the whole history |
| BrokerLedger.TallyStep | backend/capability_broker.py:942-1049 | every admitted call has one admission, and one ending iff it is finished |
| Supervisor.Manager.Run | electron-backend.js:543-796 | over any events with any answers: at most one attempt in progress, the two restart timers never both armed, at most five restarts spent, a history that obeys all rules, and, while stopping, the restart timer armed iff the latest stop was absorbed leaving it armed |
| SupervisorLog.TimerStartAfterStop | electron-backend.js:792-928 | a start that a timer requests although the latest request was to stop comes from the restart timer, and that stop was absorbed by an earlier one with the restart timer armed |
| Supervisor.AbsorbedStopThenTimer | electron-backend.js:792-928 | conversely, a stop absorbed with the restart timer armed leaves it armed, and its firing requests a start, which spawns if nothing is in progress or reusable |
| Supervisor.Manager.AttemptStep | electron-backend.js:622-766 | a step of an attempt forgets a current record iff it launches or gives up after a failed start; that record was adopted since the spawn or the kill that the step awaited, or, for a launch, was current when the kill began. An attempt that returns with no stop requested leaves neither record, child nor timer iff it had no command and nothing else was there, or became ready after its child had left |
| SupervisorLog.AdoptedSince | electron-backend.js:543-766 | a record is current iff it was adopted after a given point or current there, and not forgotten or replaced since |
| SupervisorLog.LeftSince | electron-backend.js:724-757 | a child that was current and is not any more has left since: by a stop, its exit, a failed health probe or a failed start |
| SupervisorLog.NothingWhileStopping | electron-backend.js:611-796 | between a stop request and a spawn, adoption, arming, giving up or budget reset there is a start request |
| SupervisorLog.AtMostFiveRestarts | electron-backend.js:769-796 | between two resets of the budget at most five restarts are armed |
| SupervisorLog.Logging | electron-backend.js:769-796 | what one more event does to the stopping flag and the spent budget |
| Supervisor.Manager.ScheduleRestart | electron-backend.js:769-796 | one timer is armed with the capped doubled delay, or the cool-down timer after five, or nothing while stopping or armed |
| Supervisor.Manager.StartBackend | electron-backend.js:611-626 | joins the attempt in progress or begins exactly one |
| Supervisor.Manager.BeginAttempt | electron-backend.js:622-730 | with a port record the attempt waits for its health, otherwise it launches; it leaves nothing at once iff there was no command, no child and no timer |
| Supervisor.Manager.StartSettled | electron-backend.js:615-619 | no attempt is in progress once the promise is cleared |
| Supervisor.Manager.LaunchBackend | electron-backend.js:658-709 | the record, whoever adopted it, is forgotten and a child is spawned, a restart scheduled, or the attempt ends |
| Supervisor.Manager.Checked | electron-backend.js:626-656 | a healthy existing backend is adopted unless stopping; a live one gets the grace period; a dead one is replaced |
| Supervisor.Manager.GraceEnded | electron-backend.js:637-655 | adopts a recovered backend unless stopping, otherwise goes on to replace it |
| Supervisor.Manager.ExistingKilled | electron-backend.js:655-709 | launches unless stopping |
| Supervisor.Manager.ReadyOrFailed | electron-backend.js:744-760 | adopts only the child that is still current and only when not stopping; a child that is no longer current has left since it was spawned |
| Supervisor.Manager.FailedKilled | electron-backend.js:757-766 | forgets the record and schedules one restart unless stopping; a record that is forgotten was adopted since the attempt spawned its child |
| Supervisor.Manager.ChildExited | electron-backend.js:724-742 | a superseded child's exit changes nothing; a current ready child's exit forgets it and schedules a restart unless stopping |
| Supervisor.Manager.AttachProbed | electron-backend.js:180-185 | adopts a healthy port-file backend unless stopping |
| Supervisor.Manager.Verified | electron-backend.js:188-223 | kills iff the probed record is still current, no stop is requested, it is unhealthy, and no grace applies: its process is dead, or the probes have missed for the grace period and no owned work of that period excuses a late reply; otherwise only the time of the first miss changes |
| Supervisor.Manager.RestartTimerFired | electron-backend.js:792-795 | clears the timer and starts, joining an attempt in progress |
| Supervisor.Manager.BudgetTimerFired | electron-backend.js:777-784 | resets the budget and starts only if nothing is there and no stop is requested |
| Supervisor.Manager.StabilityProbed | electron-backend.js:583-596 | gives the budget back only for the probed record, still current and healthy |
| Supervisor.Manager.StopBackend | electron-backend.js:846-928 | the first stop clears all timers and both records; one that arrives during it only sets the flag, and the log says whether it leaves the restart timer armed |
| Supervisor.Manager.AdoptBackend | electron-backend.js:543-558 | adoption clears both restart timers and arms the stability timer iff restarts were spent |
| Supervisor.StopDuringStop | electron-backend.js:921-928 | a concrete history in which a backend is spawned although the last request from outside was to stop |
| Supervisor.FailedStartForgetsAdopted | electron-backend.js:757-766 | a concrete history in which a failed start forgets a record adopted since its spawn |
| Supervisor.LaunchForgetsAdopted | electron-backend.js:653-709 | a concrete history in which a start that replaces an unhealthy backend forgets a record adopted while it was being killed |
| Supervisor.JoinedStartLeavesNothing | electron-backend.js:611-756 | a concrete history in which the latest request is to start, every start has settled, and neither record, child nor timer is left |
| ReadCache.SingleFlight | electron-workbench-watchers.js:98-109 | two unsettled reads of one key are the same read |
| ReadCache.NoStaleValue | electron-workbench-watchers.js:98-110 | a received value comes from a read of that key, entered no earlier than the last invalidation before its get began |
| ReadCache.Cache.Answer | electron-workbench-watchers.js:98-109 | the read in flight, a new attempt after it, the cached value or a new read, by version and age |
| ReadCache.Cache.Resolve | electron-workbench-watchers.js:106-106 | a value is kept for reuse only if nothing was invalidated since its read was made |
| ReadCache.Cache.Settle | electron-workbench-watchers.js:106-106 | the read is no longer pending |
| ReadCache.Cache.Deliver | electron-workbench-watchers.js:100-108 | a waiting caller gets the value, the error, or asks again |
| ReadCache.Cache.Invalidate | electron-workbench-watchers.js:110-110 | no cached value may be reused any more; reads in flight stay pending |
| ReadCache.Evict | electron-workbench-watchers.js:103-104 | goes from the oldest entry and stops as soon as the map fits |
| ReadCache.EvictionThins | electron-workbench-watchers.js:103-104 | only settled entries other than the new one are dropped, and if the map stays too large all others are pending |
| ReadCache.BeganEvicted | electron-workbench-watchers.js:102-104 | beginning a read and evicting keep all cache invariants |
| ReadCache.OldFailureIsDelivered | electron-workbench-watchers.js:100-106 | a concrete history in which a get begun after an invalidation receives an older read's error |
| ReadCache.OldFailureExactly | electron-workbench-watchers.js:98-110 | a get receives the error of a read older than itself iff its first answer was to wait for such a read, still pending when it was called, and that read failed |
| ReadCache.ReadQueue.Drain | electron-workbench-watchers.js:116-121 | reads are entered in the order asked for, at most the limit at once, and none waits while a slot is free |
| ReadCache.ReadQueue.Ask | electron-workbench-watchers.js:122-122 | a new request joins the end |
| ReadCache.ReadQueue.Finish | electron-workbench-watchers.js:119-119 | a finished read frees its slot for the next in order |
| Watchers.StartedSound | electron-workbench-watchers.js:26-90 | a start the limits admit keeps links, counters, listeners and all four limits |
| Watchers.StoppedSound | electron-workbench-watchers.js:13-25 | so does any stop, which removes its subscription only for its own sender |
| Watchers.FailedSound | electron-workbench-watchers.js:81-84 | so does a start whose native watcher fails |
| Watchers.StoppedCounted | electron-workbench-watchers.js:16-23 | the native count stays the number of open watchers and the sum of owners' entries; owner counters stay their live subscriptions |
| Watchers.OpenExactlyWhenUsed | electron-workbench-watchers.js:20-23 | a native watcher is open iff some subscription uses it |
| Watchers.OwnerIsUsed | electron-workbench-watchers.js:24-24 | an owner that is known and listened to has a live subscription |
| Watchers.Pool.Start | electron-workbench-watchers.js:26-90 | refuses iff a limit is reached and then changes nothing; fails iff it needs a native watcher that cannot be opened, and leaves no owner, listener or subscription; otherwise one new subscription on a shared or new watcher |
| Watchers.Pool.Stop | electron-workbench-watchers.js:13-25 | the last subscription closes the watcher, the last watcher releases the owner |
| Watchers.Pool.Dispose | electron-workbench-watchers.js:34-35 | a destroyed sender's subscriptions are gone, and no others |
| Watchers.Pool.WatchError | electron-workbench-watchers.js:75-78 | a watcher that fails is closed with exactly its subscriptions |
| UsageQueue.QueuedOnce | backend/llm_manifest_bus.py:337-345 | a write is queued iff it is in the queue, once, and never also running |
| UsageQueue.FenceReached | backend/llm_manifest_bus.py:430-438 | when a fence is taken from the queue every write asked for before its flush began is stored or lost |
| UsageQueue.Bus.Submit | backend/llm_manifest_bus.py:315-345 | the Goal is fixed when the write is queued; a full queue loses the write at once and charges it |
| UsageQueue.Bus.SubmitPartial | backend/llm_manifest_bus.py:347-365 | a value already pending is replaced without queueing; otherwise one write is queued, or the value withdrawn |
| UsageQueue.Bus.TakePending | backend/llm_manifest_bus.py:355-359 | a partial write always finds a value, and it is the latest submitted for its request |
| UsageQueue.Bus.Finish | backend/llm_manifest_bus.py:421-428 | a write ends as stored or as lost and charged to the Goal known when it was queued; a stored partial write leaves in the ledger the value it took |
| UsageQueue.Bus.HandOver | backend/llm_manifest_bus.py:355-361 | the ledger holds, for every request, the latest partial usage unless a later one is pending or in hand, or the latest was refused or lost |
| UsageQueue.Bus.Next | backend/llm_manifest_bus.py:413-428 | writes start in order; a fence lets its flush return |
| UsageQueue.Bus.Flush | backend/llm_manifest_bus.py:430-438 | a flush covers exactly the writes asked for before it |
| UsageQueue.Bus.PutFence | backend/llm_manifest_bus.py:436-437 | its fence goes behind everything queued |
| UsageQueue.Bus.RecordFailed | backend/llm_manifest_bus.py:104-108 | a request that could not be recorded is charged like any loss |
| UsageQueue.Bus.RememberGoal | backend/llm_manifest_bus.py:367-377 | the Goal of an open request can be looked up; the map is bounded |
| UsageQueue.Bus.SettleGoal | backend/llm_manifest_bus.py:379-388 | settling a request does not change the Goal looked up for it |
| UsageQueue.UpdateCounted | backend/llm_manifest_bus.py:397-411 | the failure counter and each Goal's counter stay the numbers of losses |
| UsageQueue.AppendCounted | backend/llm_manifest_bus.py:397-411 | the same for a write that is lost at once |
| UsageQueue.Opened | backend/llm_manifest_bus.py:347-361 | each pending value has exactly one write that will take it |
| UsageQueue.Taken | backend/llm_manifest_bus.py:355-359 | taking the value keeps that for all other requests |
| UsageQueue.Totals.Count | backend/llm_manifest_bus.py:208-236 | a report is counted iff its request is not remembered; the calls, the ten token columns and the two report counters are always the sums over the counted reports |
| UsageQueue.OnceMore | backend/llm_manifest_bus.py:208-217 | two reports counted for one request lie further apart than the bounded memory |
| ReadWindow.ReadFile | backend/builtin_tools.py:67-247 | a file that changed meanwhile is refused. With an offset or limit: refuses exactly windows that begin before line 1 or past the end; shows as many whole lines as both limits allow, at least one, never more than the byte ceiling; "complete" iff the text shown is the whole file. With neither: the whole text, inline or as an artifact, or a refusal, by size |
| ReadWindow.Select | backend/builtin_tools.py:122-144 | the loop selects the greedy window, clipping only a first line that alone exceeds the ceiling |
| ReadWindow.GreedyIsUnique | backend/builtin_tools.py:126-144 | no other number of lines meets that description |
| ReadWindow.PrefixIsLongest | backend/builtin_tools.py:136-139 | the clipped line is the longest prefix of whole characters within the ceiling |
| ReadWindow.WholeOnlyWhenComplete | backend/builtin_tools.py:233-233 | a window from line 1 shows the whole text iff it ends at the last line and no line of it was cut |
| ReadWindow.WindowFits | backend/builtin_tools.py:129-144 | no window exceeds the byte ceiling |
| ReadWindow.LinesCover | backend/builtin_tools.py:110-122 | cutting into lines at LF, CR LF and CR loses nothing and makes no empty line |
| ReadWindow.ShownIsWhole | backend/builtin_tools.py:129-141 | the pages join to the text iff no line is over the ceiling |
| ReadWindow.ReadByPages | backend/builtin_tools.py:206-247 | following `next_offset` with any limits ends; every page is a window that answers at its own limit where the page before said the next one begins, none exceeds the byte ceiling, and the page texts join to what is shown of every line once, which is the text iff no line is over the ceiling |
| ReadWindow.PagesShowLines | backend/builtin_tools.py:206-247 | any number of pages that follow one another show each line up to the last page's end once, at least one a page |
| ReadWindow.FinishedReading | backend/builtin_tools.py:206-247 | a reading whose last page names no next offset shows every line, and is the text iff no line is over the ceiling |

## Left out

- Directories made or removed by a patch, permissions, symbolic links, path normalisation, fsync reordering: operating-system behaviour.
- The shape checks of raw patch arguments and the inferred action: each change arrives as a write, replace or delete.
- A file that could not be opened during preparation is taken to stay unreadable when a replace opens it again.
- PatchPrepare.AlikeExactly: the converse is stated where find and replacement hold no carriage return, because with one both ways can end alike (`Coincidence`).
- Which rows the ingest of cells and snapshots selects: those prefixes are arguments of `SessionContext.Service.Capture`. A session without a canonical head has no certified prefix.
- The heads that the migration records for legacy views keep the legacy order, which nothing certifies; `CausalCapture` therefore speaks of heads recorded by captures.
- Excerpts of texts, search snippets and the chunking of expansions.
- Index schema, SQL, the text index itself; who may read a chat, and captures refused because an owner disappeared.
- ContextStore.Store.Migrate: the version of a descriptor is given, so the hash itself and the head fields it leaves out are not modelled.
- ContextViews.IterPages: the tables stay as they are; `ContextHistory.Index.ReadThroughChanges` lets them change between the pages.
- The broker's durable outer-call fence, desktop lock, deadlines in real time, tracing and batch invocation; refusal receipts are not stored and not modelled beyond their code.
- Supervisor: process killing, health requests, port-file parsing, status messages and how long a verification is reused; whether a probe is started is left to the caller.
- Watchers: filtering of ignored names, the notification timer and its coalesced file name.
- `sharePendingRead`: it is the cache without invalidation and without reuse of settled values.
- The usage queue outside an event loop, its shutdown, the display publisher and response identities; a Goal's text is not truncated.
- UsageQueue.Bus.Finish: of what the ledger stores, only the values of partial usage are modelled; what a final report changes in the ledger's tables is not.
- ReadWindow.ReadFile: hashes and notices are not modelled; whether the file changed is an argument; decoding is taken as done.
