# A verified model of the collaborative editor

The repository is a text editor for several users: an Operational Transformation engine
(`internal/ot`), a document state machine replicated through Raft (`internal/fsm`), a WebSocket
server in front of it (`internal/server`), and a browser client that keeps its document as
A · X · Y (`web/client.js`). This project models the four layers in Dafny and proves what they
promise.

**Texts.** A text is a sequence of code units: bytes in the Go server, UTF-16 units in the
browser. Both languages count length in these units and compare strings unit by unit, so one
model of the algebra serves both ports. Only the diffs differ: the server compares runes and
counts bytes (`Diff.ServerDiff`, over a model of Go's UTF-8 decoding), the browser compares and
counts units (`Diff.BrowserDiff`). On ASCII texts the two diffs are one and the same function
(`Optimality.PortsDiffAlike`). The protocol theorems put both sides over one alphabet, which for
the two real programs means ASCII texts.

**How it is built.**

| file | content |
|---|---|
| `Texts.dfy` | texts, the string order of the tie-breaker, sequence facts |
| `Changesets.dfy` | ops, changesets, `Validate`, the constructors |
| `Application.dfy` | the meaning of a changeset (`Run`), `ApplyChangeset` in both ports |
| `Cursors.dfy` | the partially consumed cursor and the merging output that three algorithms share |
| `Follow.dfy`, `Compose.dfy` | the two cursor loops, each against a recursion on the op lists left |
| `Merge.dfy` | an independent account of a merge, gap by gap of the source, and the diamond |
| `Views.dfy` | which units ops keep, where they insert and where each unit of the result comes from; what rebasing, composing and merging make of that |
| `NormalForms.dfy` | results known op for op |
| `Utf8.dfy`, `Diff.dfy` | Go's string/rune conversions; table, backtracking, reversal, merging; round trip and optimality in code units |
| `Alignment.dfy` | which of the minimal diffs it is |
| `Optimality.dfy` | how good the server's diff is, counted in whole runes and in bytes |
| `Selection.dfy` | cursor adjustment, and what the place it yields means |
| `Fsm.dfy` | the replicated state machine, its invariant, which entries it accepts, the ladder, exactly-once, snapshots between two machines |
| `Fitting.dfy` | what becomes of accepted entries that were written for a text of another length |
| `Client.dfy` | the browser's handlers |
| `Server.dfy` | submit gate and commit notices |
| `Protocol.dfy` | the whole system as a state machine over joins, departures, edits, ticks, commits and deliveries |
| `Resending.dfy` | the same with submissions sent again by the timer |

Code that updates state is modelled as classes and methods (`OpSlice`, `OpBuilder`,
`DocumentStateMachine`, `FsmSnapshot`, `IdTable`, `Browser`, `Node`, the table and the in-place
reversal of the diff). Each such method is proved equal to a function of its inputs or old state,
and the theorems are about those functions. Where the Go program shares memory the model does too:
the revision log is an array with a length that `append` writes in place, the dedup map is an
object, and a snapshot holds copies of both.

**Reading the main results.** `Merge.MergedFrom` says what a merge is without cursors: at every gap
of the source document the texts both sides insert there, ordered by the tie-breaker, and between
the gaps the units both sides keep. `Merge.FollowMerges` shows that applying A and then B rebased
over it yields exactly that. The promise of `internal/ot/follow.go:8` then holds if and only if the
texts at every gap are tie-safe (`Merge.DiamondExact`). Changesets in the merged form that
`addOp` produces always are; changesets that merely pass `Validate` need not be
(`Merge.DiamondFailsUnmerged`). What a merge costs either side is `Views.RebasedKeeps`: rebased over
A, B deletes nothing that A inserted and, of the document's own units, exactly those it deleted
itself and A left; `Client.BroadcastSpares` is the same for the screen of a user who is typing.
`Protocol.EveryRunIsSafe`, `Protocol.QuietUser`, `Protocol.ProductiveRunsEnd` and
`Protocol.StuckMeansConverged` are the statements about whole runs of the system in which every
submission is sent once. With submissions sent again, `Resending.CalmRunsAreSafe` holds for all
runs in which no repeated ACK meets a client that awaits another one, and
`Resending.RepeatedAckBreaks` is a family of runs that shows why the code needs that.

**Where code and comments disagree**, the model follows the code:

- `internal/ot/follow.go:5-8` promises one merged text for any two changesets of one document. It
  fails for validated changesets with two adjacent inserts; the exact condition is proved.
- `internal/fsm/fsm.go:12` folds the log over the empty text; the code starts from the initial
  text it was constructed with, and so does the invariant. Under it the comment holds if and only
  if that text is empty (`Fsm.FoldsFromEmpty`), which is how `cmd/server/main.go:70` starts it.
- `internal/fsm/fsm.go:85` and `internal/server/websocket.go:402` say a duplicate yields nil; the
  code returns a result marked as duplicate.
- `web/client.js:439` takes an ACK to mean that X was committed. The ACK of a submission sent twice
  may come while another X is awaited; it is harmless if and only if nothing is
  (`Client.RepeatedAckExact`).
- `internal/ot/diff.go:11` calls the server's changeset minimal. Among all changesets of bytes it
  keeps the most runes whole (`Optimality.ServerOptimal`). In bytes it is minimal against every
  other text if and only if the text is ASCII (`Optimality.ByteOptimalExact`); from é to è it
  retains nothing where one byte could stay (`Optimality.AccentLosesByte`).
- The diff's changeset validates only for well-formed UTF-8: on ill-formed bytes it
  breaks, and the exact condition is proved.
- `internal/ot/apply.go:17` says a length mismatch panics or returns an error. It returns an error.
  Two things do panic once `OldLen` fits: a negative `NewLen`, in `strings.Builder.Grow`, and the
  first retain that slices out of bounds (`Application.ApplyOutcomes`, with inputs in
  `Application.ApplyCanPanic`). A valid changeset never does (`Application.ApplyExact`).
- The loop of `Apply` does not compare `OldLen` with the base text. With a revision to catch up
  over it cuts the entry to the text at its base and accepts it exactly when the end of what is
  left, carried through the missed revisions like a cursor, lands at the end of the head text.
  Longer entries always do; shorter ones may (`Fsm.AcceptsExact`, `Fsm.ShorterIsAccepted`). What
  it then commits is what the entry, cut or padded to its base text, would commit
  (`Fitting.AcceptedIsFitted`).
- The submit gate does not look at the base revision. A negative one makes `Apply` index the log
  out of range, and a negative argument makes `RevisionsSince` slice out of range; both are
  outcomes of the model.

## Model

| member | source | states |
|---|---|---|
| `Texts.LexLeExact` | internal/ot/follow.go:126 | the order of the tie-breaker: a text precedes those it is a prefix of, and otherwise the first unit in which two texts differ decides |
| `Changesets.Validate` | internal/ot/changeset.go:138-170 | accepts exactly the valid changesets; otherwise names the first offending op, and reports a length only when all ops are fine |
| `Changesets.IsIdentityPorts` | internal/ot/changeset.go:69-82 | on valid changesets the Go and JavaScript identity tests agree and single out the identity of that length |
| `Changesets.MakeInsert` | internal/ot/changeset.go:100-115 | builds retain, insert, retain with empty retains left out, for any arguments |
| `Changesets.MakeDelete` | internal/ot/changeset.go:119-134 | builds retain, delete, retain with empty retains left out, for any arguments |
| `Application.InsertAtExact` | internal/ot/changeset.go:98-115 | `MakeInsert` validates iff the text is non-empty and the position lies in the document, and then inserts the text there |
| `Application.DeleteAtExact` | internal/ot/changeset.go:117-134 | `MakeDelete` validates iff the range is non-empty and lies in the document, and then removes it |
| `Application.ApplyChangeset` | internal/ot/apply.go:18-73 | the loop computes the outcome function for every text and changeset, with every error branch and both panics |
| `Application.ApplyExact` | internal/ot/apply.go:18-70 | on ops with positive lengths, application succeeds iff `NewLen` is not negative and `OldLen` is both the text's length and what the ops read; the result is then the meaning `Run`; it panics iff `OldLen` fits and `NewLen` is negative |
| `Application.ApplyOutcomes` | internal/ot/apply.go:18-73 | for every text and changeset, well-formed or not: exactly when application succeeds and exactly when it panics, in terms of the op lengths and `NewLen` |
| `Application.ApplyReports` | internal/ot/apply.go:20-70 | which error is reported, for every text and changeset: the text's length before all else, then what is wrong with the first op the loop does not get past, an unconsumed source only after all ops |
| `Application.ApplyWrites` | internal/ot/apply.go:30-73 | whatever succeeds writes, op by op, each insert's text and the stretch of the source each retain stands at, lengths of zero and below included |
| `Application.ApplyCanPanic` | internal/ot/apply.go:28-43 | two panicking inputs, one for a negative `NewLen` and one for a negative retain |
| `Application.ApplyChangesetJs` | web/client.js:44-61 | the unchecked JavaScript loop computes its outcome function on any ops: `slice` counts negative indexes from the end and clips, unknown ops are skipped |
| `Application.SliceExact` | web/client.js:52 | what `slice` means for indexes inside the text, negative, beyond its ends and out of order |
| `Application.ScanJsWrites` | web/client.js:48-60 | the browser's loop writes, op by op, each insert's text and the slice each retain stands at, for ops of any kind and length |
| `Application.PortsAgree` | web/client.js:41-61 | on valid changesets the two ports agree on every text, success and length error alike |
| `Cursors.OpSlice.Peek` | internal/ot/follow.go:44-55 | returns the first op of what is left, cut by the offset, or none |
| `Cursors.OpSlice.Consume` | internal/ot/follow.go:57-75 | moves past exactly the given number of units, across ops or inside one |
| `Cursors.SkipTwice` | internal/ot/follow.go:57-75 | consuming in two steps is consuming once |
| `Cursors.SkipLeaves` | internal/ot/follow.go:57-75 | what is left after consuming offers exactly as many units fewer |
| `Cursors.OpBuilder.Add` | internal/ot/follow.go:78-105 | appends or merges into the last op, and keeps `newLen` equal to what the ops produce |
| `Cursors.AddOpMeaning` | internal/ot/follow.go:78-105 | merging an op changes neither the length read nor the rewriting of any document |
| `Cursors.AddAllCanonical` | internal/ot/follow.go:78-105 | output built by `addOp` has positive lengths and no two adjacent ops of one type |
| `Follow.Follow` | internal/ot/follow.go:29-189 | the cursor loop terminates on ops of positive length, equal old lengths or not, and computes the merged form of the recursion |
| `Follow.FollowValid` | internal/ot/follow.go:29-189 | the result is in merged form with a right `newLen`, reads A's output length, and is valid whenever B reads at least as much as A |
| `Merge.RawFollowMerges` | internal/ot/follow.go:110-186 | A and then B rebased over it gives the gap-by-gap merge, for any two changesets of one document |
| `Merge.FollowMerges` | internal/ot/follow.go:7-10 | the same for the merged output: valid, in merged form, reading exactly A's result |
| `Merge.TieMergeInterleaves` | internal/ot/follow.go:125-154 | at every gap the merge holds all texts of both sides, each side's in its order, none twice |
| `Merge.TieExact` | internal/ot/follow.go:125-136 | the two merges of one gap agree iff the gap is tie-safe |
| `Merge.DiamondExact` | internal/ot/follow.go:8-10 | both orders give one text iff every gap is tie-safe; both rebased forms have one `NewLen` in any case |
| `Merge.DiamondCanonical` | internal/ot/ot_test.go:286-345 | for changesets in merged form both orders give one text, equal texts at one position included |
| `Merge.DiamondFailsUnmerged` | internal/ot/follow.go:125-136 | two valid changesets, one with adjacent inserts, whose two orders differ |
| `Compose.Compose` | internal/ot/compose.go:28-161 | the cursor loop terminates on ops of positive length and computes the merged form of the recursion, with the preset lengths |
| `Compose.RawComposeRuns` | internal/ot/compose.go:97-158 | for consecutive op lists, what is emitted rewrites the document like the first and then the second |
| `Compose.ComposeMeaning` | internal/ot/compose.go:5-10 | for consecutive changesets the composition is valid, in merged form, and equals one after the other on every document |
| `Views.OriginIsPlace` | internal/ot/apply.go:30-63 | unit k of the result comes from source unit i iff that unit is retained and lands at k |
| `Views.OriginText` | internal/ot/apply.go:30-63 | and it is that very unit |
| `Views.RawFollowKeeps` | internal/ot/follow.go:138-186 | rebased over A, B retains a unit of A's result iff A inserted it or B retains it: no insert of A is ever deleted, nothing is deleted twice |
| `Views.RebasedKeeps` | internal/ot/follow.go:14-22 | the same for the merged output |
| `Views.ComposedOrigin` | internal/ot/compose.go:5-10 | a composition takes every unit of its result from where the two steps take it |
| `Views.ComposedLands` | internal/ot/compose.go:97-158 | a cursor moves through a composition as through the two steps, so inserts stay in front of deleted units or behind them as the two steps put them |
| `NormalForms.FollowOfIdentity` | web/client.js:496 | rebasing the identity over A gives the identity on A's result, op for op |
| `NormalForms.FollowOverIdentity` | web/client.js:493 | rebasing over the identity returns a merged changeset unchanged, op for op |
| `NormalForms.ComposeOntoText` | web/client.js:446-460 | composing onto the changeset of a text gives the changeset of the rewritten text, so A stays one insert |
| `NormalForms.ComposedRebaseKeeps` | internal/ot/follow.go:138-186 | rebased over A1 and then A2, or over their composition, any changeset retains the same units |
| `NormalForms.ComposedRebaseAgrees` | internal/ot/follow.go:138-186 | a changeset without inserts is rebased to the same changeset both ways, op for op |
| `NormalForms.ComposedRebaseDiffers` | internal/ot/follow.go:125-136 | three merged changesets, one insert each, for which the two ways put the insert in different places |
| `NormalForms.IsIdentityExact` | internal/ot/changeset.go:66-82 | a merged changeset passes the identity test iff it leaves every document of its length unchanged |
| `Diff.LcsTable` | internal/ot/diff.go:18-36 | every table entry is the longest-common-subsequence recurrence on the two prefixes |
| `Diff.LcsIsLongest` | internal/ot/diff.go:18-36 | that recurrence is the true maximum: some common subsequence has this length and none is longer |
| `Diff.Backtrack` | internal/ot/diff.go:38-59 | the walk back yields the edit script, last segment first |
| `Diff.ReverseSegs` | internal/ot/diff.go:61-64 | the in-place swap loop leaves the reversed contents |
| `Diff.MergeSegs` | internal/ot/diff.go:66-98 | merging the segments yields the merged form of their ops |
| `Diff.DiffToChangeset` | internal/ot/diff.go:13-101 | the server's diff computes the merged script over decoded runes, with byte lengths preset |
| `Diff.DiffToChangesetJs` | web/client.js:238-280 | the browser's diff computes the merged script over code units |
| `Diff.ServerRoundTrip` | internal/ot/diff.go:44-100 | the server's diff validates iff both texts are well-formed UTF-8; it is then in merged form and turns old into new |
| `Diff.ServerDiffBreaks` | internal/ot/diff.go:92-98 | on a lone continuation byte the diff yields an invalid changeset |
| `Diff.BrowserRoundTrip` | web/client.js:238-280 | for all texts the browser's diff is valid, in merged form, and turns old into new |
| `Diff.BrowserDiffIdentity` | web/client.js:605-606 | the diff is the identity iff the texts are equal |
| `Diff.DiffOptimal` | internal/ot/diff.go:11 | of all changesets between two texts the diff retains the most and edits the least |
| `Alignment.DiffDeletesFirst` | internal/ot/diff.go:46-59 | where the diff replaces text it deletes before it inserts |
| `Alignment.DiffKeepsLatest` | internal/ot/diff.go:46-59 | of all changesets between two texts that keep as many units as the diff, none keeps a later unit of the old text |
| `Optimality.ServerRetains` | internal/ot/diff.go:18-98 | what the server's diff retains is the encoding of a longest common subsequence of the decoded texts |
| `Optimality.PortsDiffAlike` | web/client.js:238-280 | on ASCII texts the server's and the browser's diff are the same changeset |
| `Optimality.AsciiOptimal` | internal/ot/diff.go:11 | with ASCII on either side no changeset of bytes retains more than the server's |
| `Optimality.ByteOptimalExact` | internal/ot/diff.go:11 | the server's diff is minimal in bytes between a text and every other text, in either direction, iff that text is ASCII |
| `Optimality.AccentLosesByte` | internal/ot/diff.go:11 | from é to è a valid changeset retains one byte and the server's retains none |
| `Optimality.PieceAt` | internal/ot/diff.go:14-15 | UTF-8 synchronizes itself: a rune's bytes found anywhere in an encoded text are one of its runes |
| `Optimality.RunesKeptAreCommon` | internal/ot/diff.go:11 | the runes any changeset of bytes keeps whole are a common subsequence of the decoded texts |
| `Optimality.ServerKeepsWhole` | internal/ot/diff.go:66-98 | every rune the server's script keeps stays whole in the byte changeset it is merged into |
| `Optimality.ServerOptimal` | internal/ot/diff.go:11 | of all changesets of bytes between two well-formed texts the server's keeps the most runes whole, as many as the table's last entry says |
| `Utf8.DecodeExact` | internal/ot/diff.go:14 | decoding and encoding returns the bytes iff they are well-formed (section 4 of RFC 3629); otherwise the result is longer |
| `Utf8.EncodeRoundTrip` | internal/ot/diff.go:92-98 | encoding any scalar values gives well-formed bytes that decode to them |
| `Utf8.DecodeSteps` | internal/ot/diff.go:14-15 | decoding reads a scalar value wherever its encoding comes next, and otherwise one byte as U+FFFD |
| `Utf8.EncodeOrdered` | internal/ot/diff.go:92-98 | encodings are ordered byte by byte as their values are (section 1 of RFC 3629) |
| `Fsm.IdTable.Copy` | internal/fsm/fsm.go:210-213 | the copying loop yields another map object with the same entries |
| `Fsm.CopyRecords` | internal/fsm/fsm.go:207-208 | the records are copied into an array of their own |
| `Fsm.DocumentStateMachine.constructor` | internal/fsm/fsm.go:58-67 | starts with the initial text, an empty log and an empty map |
| `Fsm.DocumentStateMachine.Append` | internal/fsm/fsm.go:163 | `append` adds one record, in place or in a larger array, and leaves what the old slice showed as it was |
| `Fsm.DocumentStateMachine.Apply` | internal/fsm/fsm.go:87-192 | new state and result are functions of the old state and the entry: duplicate, failure and acceptance; it panics iff a fresh entry names a negative base revision, and then changes nothing |
| `Fsm.DocumentStateMachine.CatchUpEntry` | internal/fsm/fsm.go:133-143 | the loop rebases the entry over every revision since its base, oldest first; it panics iff the base is negative |
| `Fsm.DocumentStateMachine.Snapshot` | internal/fsm/fsm.go:202-223 | the snapshot holds the whole replicated state, in a fresh array and a fresh map |
| `Fsm.FsmSnapshot.Persist` | internal/fsm/fsm.go:296-301 | what is written is the snapshot's contents |
| `Fsm.DocumentStateMachine.Restore` | internal/fsm/fsm.go:231-252 | the state becomes what was persisted, in fresh memory, a missing map replaced by an empty one |
| `Fsm.MissingMapForgets` | internal/fsm/fsm.go:241-247 | without the map everything else is restored and no submission is recognised |
| `Fsm.DocumentStateMachine.RevisionsSince` | internal/fsm/fsm.go:274-285 | a fresh copy of the records from the given revision on, none beyond the head; it panics iff that revision is negative |
| `Fsm.SinceExact` | internal/fsm/fsm.go:277-284 | the records a reader is sent are, as they are, what the log holds behind the ones it knows; none beyond the end |
| `Fsm.NextInv` | internal/fsm/fsm.go:11-14 | any validated entry, whatever text it was written for, keeps the invariant |
| `Fsm.StepRecords` | internal/fsm/fsm.go:98-191 | an entry changes the state iff it is accepted; it then appends one record under its author's name and moves that author's id alone, and the callback is given that record; a duplicate is answered as one, a refused entry not at all |
| `Fsm.LogRecordsAccepted` | internal/fsm/fsm.go:158-168 | along every log exactly the accepted entries leave a record, in order and under their author's name |
| `Fsm.NextNormal` | internal/fsm/fsm.go:133-163 | entries in merged form leave every record of the log in merged form, so the diamond applies along the whole log |
| `Fsm.InvMeans` | internal/fsm/fsm.go:12 | under the invariant the log folds to the head text, record lengths chain and every record validates |
| `Fsm.EveryLogFolds` | internal/fsm/fsm.go:11-14 | the same after every log of validated entries, with the head revision counting the log |
| `Fsm.FoldsFromEmpty` | internal/fsm/fsm.go:12 | under the invariant the fold from the empty text gives the head text iff the initial text is empty |
| `Fsm.RawFollowLands` | internal/ot/follow.go:110-186 | rebasing a changeset that reads less than A yields one that reads A's output up to where its end lands |
| `Fsm.AcceptsExact` | internal/fsm/fsm.go:98-155 | which valid entries are accepted, for every length and every base revision: a fresh one with revisions to catch up over iff the end of its text, carried through them, lands at the end of the head text; any other fresh one iff it is as long as the head text |
| `Fsm.GoodIsAccepted` | internal/fsm/fsm.go:133-155 | a fresh entry of the right length is always accepted; a longer one iff there is a revision to catch up over |
| `Fsm.ShorterIsAccepted` | internal/fsm/fsm.go:133-155 | an accepted entry that was written for a shorter text than the one at its base |
| `Fitting.RawFollowCuts` | internal/ot/follow.go:156-160 | rebasing over A sees nothing of a longer B behind the text A was written for |
| `Fitting.UptoRuns` | internal/ot/follow.go:156-160 | a changeset cut at a place writes what the whole one writes up to where that place lands |
| `Fitting.AcceptedIsFitted` | internal/fsm/fsm.go:133-168 | an entry accepted over missed revisions commits the record, text and map, and gives the answer, of the entry cut or padded to the text at its base |
| `Fitting.AcceptedMergesFitted` | internal/fsm/fsm.go:133-168 | so the head text after any such entry is the base text with the fitted change first and the missed revisions rebased over it |
| `Fitting.AheadCommitsAsIs` | internal/fsm/fsm.go:135-168 | an accepted entry that names the head revision or a later one is committed as it came |
| `Fsm.CaughtUpNeverPanics` | internal/fsm/fsm.go:133-155 | what a validated entry has become by the time it is applied never makes `ApplyChangeset` panic |
| `Fsm.LadderCloses` | internal/fsm/fsm.go:124-143 | for a history of any length, catching up and applying at the head equals applying at the base and then the history rebased over it |
| `Fsm.AcceptedMerges` | internal/fsm/fsm.go:133-168 | the same for the state machine's head text after an accepted entry |
| `Fsm.LaterBaseCommitsSame` | internal/fsm/fsm.go:135-168 | resubmitting from a later base what was caught up to it commits the same record, text and map |
| `Fsm.AcceptedOnce` | internal/fsm/fsm.go:98-122 | along every log each client's accepted ids strictly increase and the map ends at the last |
| `Fsm.ResubmissionInvisible` | internal/fsm/fsm.go:98-122 | a submission repeated anywhere after it was accepted changes nothing in the final state |
| `Fsm.CopiesOutlive` | internal/fsm/fsm.go:206-213 | a snapshot, and the records given to a reconnecting client, still hold what the machine held then after any further `Apply` calls |
| `Fsm.RestoreCatchesUp` | internal/fsm/fsm.go:198-252 | a second machine restored from the first one's snapshot and fed the entries since ends in the first one's state, with no memory shared |
| `Fsm.SnapshotReplays` | internal/fsm/fsm.go:198-252 | with a snapshot after any prefix, both machines end in the state of a full replay |
| `Fsm.LogGrows` | internal/fsm/fsm.go:184-187 | later entries only append, so what was copied from the log stays a prefix of it |
| `Fsm.CatchUp` | internal/fsm/fsm.go:272-285 | folding the revisions since r over the text at r gives the head text |
| `Selection.AdjustCursor` | web/client.js:642-658 | on any ops and any position the loop, with its early exit and clamp, moves the cursor by the drift of the ops; on ops with positive lengths it ends at the landing place |
| `Selection.DriftSkips` | web/client.js:645-656 | ops of length zero and of unknown type move no cursor |
| `Selection.LandsBehindWritten` | web/client.js:637-658 | the new text up to the landing place is exactly what was written up to the old position, inserts at the cursor included |
| `Selection.LandsInRange` | web/client.js:642-658 | a cursor in the old text lands in the new one |
| `Selection.LandsInOrder` | web/client.js:507-511 | cursors keep their order |
| `Selection.LandsOnSameUnit` | web/client.js:507-511 | a cursor in front of a retained unit lands in front of that unit, and one behind it behind it and what is inserted there |
| `Client.Browser.constructor` | web/client.js:387-391 | a first connection takes over the head text and revision; A is then that text, and nothing is pending |
| `Client.Browser.HandleAck` | web/client.js:442-466 | the new client state is the function of the old one the ACK prescribes, fallback branch included |
| `Client.Browser.HandleBroadcast` | web/client.js:477-530 | the same for a broadcast, with the branches taken when a length error is thrown |
| `Client.Browser.SubmitTick` | web/client.js:581-616 | the same for the timer; a message goes out iff something is submitted or a resend is due |
| `Client.AckFolds` | web/client.js:438-456 | the ACK makes A · X the base text and X the identity, and leaves the screen alone |
| `Client.AckExact` | web/client.js:442-466 | all an ACK changes: A, X, base text, revision and the flag; screen, selection, local rest and counter stay |
| `Client.AckFallsBack` | web/client.js:458-463 | where A creates no text from nothing, the base text is taken from the screen |
| `Client.RepeatedAckExact` | web/client.js:442-466 | an ACK for a revision the client already knows changes nothing iff nothing is awaited and X is the identity; it leaves the base text right iff X changes nothing in it |
| `Client.TwoDiamonds` | web/client.js:468-498 | the two uses of the diamond that relate the screen change to X' and Y' |
| `Client.BroadcastKeepsView` | web/client.js:477-524 | a fitting broadcast never throws; base text and X move by one rebase and the screen is exactly A' · X' · Y' |
| `Client.BroadcastMerges` | web/client.js:486-516 | the screen after a broadcast is the merge, over the text of A · X, of the smallest edit that leads to the old screen and of the broadcast rebased over X |
| `Client.BroadcastMovesSelection` | web/client.js:500-511 | each selection end goes behind exactly what the change of the screen writes up to it; the counter and the flag stay |
| `Client.BroadcastThrows` | web/client.js:486-529 | in any state the handler gives up, changing nothing, where X does not fit the base text, and otherwise reaches the new revision; where neither A nor the broadcast gives a base text, the old one stays |
| `Client.ScreenOriginText` | web/client.js:486-491 | a unit of the screen that was not typed here is the unit of the base text it is traced to |
| `Client.BroadcastSpares` | web/client.js:491-516 | a broadcast takes from the screen exactly the units of the base text that it deletes itself; text typed here stays, sent or not, and what stays is found at its landing place |
| `Client.BroadcastKeepsSelection` | web/client.js:500-511 | a selection end stays in front of its unit unless the broadcast itself deletes that unit from the base text |
| `Client.BroadcastKeepsSettled` | web/client.js:488-516 | where nothing was typed beyond A · X, nothing is after the broadcast |
| `Client.TickSubmits` | web/client.js:594-614 | the timer submits iff nothing is awaited and the screen differs from A · X; X then leads from the base text to the screen |
| `Client.TickExact` | web/client.js:594-615 | all the timer changes: X becomes the diff from A · X to the screen and a new id is used; screen, selection and base text stay |
| `Client.TickSubmitsLeast` | web/client.js:605-609 | no changeset from the base text to the screen edits less or retains more than what is submitted |
| `Server.Node.OnCommit` | internal/server/websocket.go:418-448 | the author gets an ACK, every other client the broadcast unless it was a duplicate, and each channel gets exactly that |
| `Server.Node.HandleSubmit` | internal/server/websocket.go:363-386 | an invalid changeset is answered with an error on its connection and not proposed; a valid one is proposed unchanged, for the client the message names |
| `Protocol.JoinOk` | web/client.js:287-292 | a page that connects for the first time, with the counter its browser kept, meets the client invariant |
| `Protocol.LeaveOk` | web/client.js:287-292 | a page closed with nothing of its own under way leaves every other client and the kept counters in order |
| `Protocol.TickOk` | web/client.js:594-615 | a timer step keeps the client invariant, with a fresh id and a valid changeset |
| `Protocol.BroadcastOk` | web/client.js:491-524 | delivering a broadcast keeps it: base text at the next revision, X still what the server makes of it |
| `Protocol.AckAgrees` | web/client.js:446-455 | when an ACK is delivered, X is op for op the changeset the server committed |
| `Protocol.CommitAccepts` | internal/fsm/fsm.go:133-168 | in every run a proposed entry is accepted, as X caught up over what its author has not seen |
| `Protocol.CommitOk` | internal/server/websocket.go:418-441 | a commit keeps the invariant of the author and of every other client |
| `Protocol.EveryRunIsSafe` | web/client.js:442-530 | in every run the log folds to the head text and each base text is the server text at the client's revision |
| `Protocol.QuietUser` | web/client.js:598-606 | a user who types nothing after a submit keeps the screen at A · X while the page is open, closed and reopened or not; the timer then submits nothing, and with no ACK awaited the screen is the base text |
| `Protocol.TickSettles` | web/client.js:594-615 | the timer, firing with nothing awaited, brings a client into that state |
| `Protocol.QuiescentConverged` | internal/ot/ot_test.go:8-9 | with nothing under way every screen shows the head text at the head revision |
| `Protocol.ProductiveRunsEnd` | web/client.js:581-616 | without new edits every order of submits, commits and deliveries ends within a bound known at the start |
| `Protocol.StuckMeansConverged` | internal/ot/ot_test.go:8-9 | wherever such an order cannot go on, every screen shows the head text |
| `Protocol.CanConverge` | internal/ot/ot_test.go:8-9 | from every reachable state such an order leads to one head text on every screen |
| `Resending.EventAlike` | web/client.js:583-592 | in a system with repeated entries and ACKs under way, every step does what the same step, or none, does to the system without them |
| `Resending.PlainRunsAreCalm` | web/client.js:581-616 | every run in which nothing is sent twice is calm and has the same outcome |
| `Resending.CalmRunsAreSafe` | internal/fsm/fsm.go:93-122 | with submissions sent again at any time the log folds to the head text and each base text is the server's, as long as no repeated ACK is delivered to a client that awaits one |
| `Resending.CalmRunsConverge` | internal/ot/ot_test.go:8-9 | after every such run, with nothing under way, every screen shows the head text at the head revision |
| `Resending.RepeatedAckBreaks` | web/client.js:583-592 | for any text sent twice and any second text typed after its ACK, a run after which the client's base text is not the server's at its revision |

## Left out

- Raft, the log store, gRPC, WebSocket pumps, timers, flags and the page: the committed log is taken as one agreed sequence of entries.
- JSON: encoding is taken as the identity; a nil slice turned into `null` is not modelled.
- Delivery: messages to a client are assumed to arrive in order and none is dropped. The code starts a goroutine per callback and drops messages on a full channel.
- Reconnecting: a page joins in one step and may be closed and opened again when nothing of its own is under way. The catch-up branch of `handleConnectAck` for a page that stays open rebases Y with an X already overwritten, so the screen invariant is not claimed there.
- Resending by the timer: that runs end is proved for those in which nothing is sent twice; with repetitions, safety of calm runs, convergence once nothing is under way, and the run that breaks.
- Redirects, leader checks, the error codes sent to clients, and entries that Raft fails to commit.
- What Raft does with a node whose `Apply` panicked.
- Texts outside ASCII across the two ports: lengths and order differ between bytes and UTF-16 units.
- Machine integers and memory: lengths, revisions and ids are unbounded, and no allocation fails.
- Aliasing of texts and of the ops inside a changeset: they are values; nothing in the code writes to them once they are in the log. How much `append` over-allocates is fixed to one choice.
- Stress-test tooling, logging and the status display.
