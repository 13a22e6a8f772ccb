# The SCCS weave, verified

CSSC keeps every version of a file in one s-file: a delta table followed by a *body* in which the
lines of all versions are interleaved with control lines `^AI n`, `^AD n` and `^AE n`. This project
models what CSSC does with that body and with the table in front of it, and proves that versions
are never lost or mixed up: whatever is checked in or removed later, a delta that is still there is
retrieved as exactly the text that was checked in, every line is blamed on the delta that brought it in,
and the file on disk opens again with the same table and body.

Everything is checked by `dafny verify dfyconfig.toml`.

## How the project is built

| file | what it holds |
|---|---|
| `Weave.dfy` | body lines, open blocks, visibility, well-formed bodies, the disposition rule |
| `SeqState.dfy` | the reader's table of states as a class (`seq_state`), proved against visibility |
| `DiffScript.dfy`, `DiffState.dfy` | what a diff means, and the `diff_state` cursor over diff output as a class |
| `DiffFormat.dfy` | diff output read by its line numbers alone: exactly what a list of hunks describes |
| `Moves.dfy` | the moves a check-in makes whatever the diff says |
| `CheckIn.dfy`, `Removal.dfy` | the specifications of check-in and removal, and the theorems about one body |
| `BodyScanner.dfy` | the loops `get`, `delta` and `remove`, proved against those specifications |
| `History.dfy` | the transition system create / check-in / null delta / rmdel, its invariant, the history theorem |
| `SccsFile.dfy` | the commands on an s-file as a class; each is a run of that transition system |
| `BodyText.dfy`, `FileHeader.dfy`, `FileImage.dfy` | the body and the header as lines of the file; the whole file written, patched and opened again |
| `Storage.dfy` | the history theorem on disk: for the body, for the whole file, and for binary files |
| `Commands.dfy` | runs of commands with pending edits: when SIDs stay unambiguous, and what asking for a SID then gives |
| `Selection.dfy` | the ancestor walk and the include, exclude and ignore passes |
| `DeltaTable.dfy`, `LoopCheck.dfy` | the table with its index; the memoised loop check |
| `Sid.dfy`, `RangeList.dfy`, `NextSid.dfy` | SIDs, range lists, the choice of a new SID |
| `Decimal.dfy`, `HeaderText.dfy`, `Delta.dfy`, `DeltaRecord.dfy` | the delta record, printed and parsed |
| `Grammar.dfy` | what the readers of SIDs, dates, records, header and body accept and refuse, on any input |
| `Checksum.dfy` | patching line counts, encoded flag and checksum in place |
| `Encoding.dfy` | the uuencode codec for binary bodies |
| `Basics.dfy` | `Option` and one fact about concatenation |

The order of reasoning in the main part:

1. `Visible` says declaratively when a text line belongs to a version. `SeqState.DecideDisposition`,
   a loop over running maxima, computes exactly that; `InnermostIsTop` and `DispositionRule` show that
   in a well-formed body the numeric maximum is the innermost open block, so every shown line belongs
   to the delta that inserted it.
2. Diff output means what its line numbers say (`DiffFormat.Applied`); it applies to a text exactly when it is
   that of a list of hunks (`RenderApplies`, `AppliesIsRender`). `Compile` turns it into one instruction per line, `Settle` is what a
   check-in writes before one old line, and `DiffState.Process` makes exactly these moves on any valid
   diff output.
3. `WeaveIn` is the body written by a check-in. `CheckInCorrect`, `CheckInWellFormed`, `ExactUndo` and
   `NonInterference` hold for every well-formed body, selection and diff; the last one follows from the
   exact undo together with `SafeRemoval`.
4. `History.Inv` adds that control lines of a delta lie only inside inserts of its own ancestors. That is
   why a delta without live successors can always be cut out (`RmdelNeverFails`), and with it every step
   keeps the invariant (`NextKeepsInv`), which gives `HistoryTheorem` and `BlameTheorem` over all runs.
   What they compare with is a record of versions that is kept from the events alone, without a look at the body.
5. The class `SccsFile` runs the loops and the table together and is shown to make only such steps.
6. `Commands` adds the pending edits. Every command keeps SIDs unambiguous, except a check-in whose
   automatic null deltas take a SID that is live or pending (`CommandKeepsSids`), and as long as that does not
   happen a SID leads to the text last checked in under it (`SidTheorem`).
7. `FileImages` writes header and body as one string of characters, patches counts, flag and checksum in
   place, and proves that what is opened afterwards is what was written; `Storage.StoredFile` puts this
   together with the history theorem.

Assumptions that the model states and the programs do not check: text lines do not look like control lines
(`Storage.PlainEvent`; `BodyText.BodyRoundTrip` shows the condition is exact), the body is balanced
when a check-in reaches the end of the file, and the highest sequence number is below 65535
(`SEQ_LIMIT`: sequence numbers are 16 bits wide and the loop in `seqstate.cc` runs while `s <= last_`).

Where code and comments disagree, the model follows the code:

- `src/parser.cc:365-367` says that number fields top out at 9999; the limit in the code is 99999, and a larger
  number only draws a warning.
- `src/seqstate.cc:319` speaks of the delta at the top of the stack; there is no stack, only maxima over numbers.
  The two agree on well-formed bodies, which is `Weave.InnermostIsTop`.
- `sid::comparable` lets two branch SIDs be compared that differ only in release or only in level.
- The "high release" of the table need not be a trunk SID: a SID without a level can displace it.
  `DeltaTables.HighestReleaseMayLeaveTrunk` gives the case and `DeltaTables.HighestReleaseIsTrunk` the exact condition.
- The assertion at the end of `find_next_sid` does not hold when joint edits are off.
  With 1.1 and 1.1.1.1 in the table, whoever edits one of them with `-b` is given 1.1.2.1
  (`NextSids.SoloEditFirstBranch`), and so is a second editor of the other one, whom the lock test at
  `src/sf-get2.cc:357-369` lets pass (`NextSids.SoloEditMayCollide`).
  `NextSids.SoloEditIsFreshExactlyWhen` gives the exact condition.
- Automatic null deltas are given the first level of their release without a look at the table
  (`src/sf-delta.cc:295-321`), so that two live deltas can share a SID.
  `Commands.NullDeltasMayDuplicate` gives the case and `Commands.CommandKeepsSids` the exact condition.
- Diff output that deletes more lines than the old text has is not noticed at end of file
  (`src/body-scanner.cc:495-526`): the check-in succeeds and leaves `^AD n` open.
  `CheckIn.OverlongDiffLeavesBlockOpen` gives the case and `CheckIn.WellFormedIffClosed` the exact condition.
- A last line without a newline loses its last character when it is read (`src/base-reader.h:115-117`).
- A text line that consists of `^A` alone is taken for text, not for a control line, because the letter
  after it is the end of the line (`src/base-reader.h:95-98`).

## Model

| member | source | states |
|---|---|---|
| `History.HistoryTheorem` | src/body-scanner.cc:81-243 | over every run of create, check-in, null delta and permitted rmdel steps, a live delta is retrieved by its ancestor chain as exactly the version checked in, text and owners, however many steps follow |
| `History.BlameTheorem` | src/body-scanner.cc:151-157 | in every reachable file each retrieved line is blamed on a live ancestor; the event that made that ancestor added the line, its own version shows it, and no line of the version before it has that owner |
| `History.NextKeepsInv` | src/sf-delta.cc:172-384 | every step keeps: predecessors older and live deltas closed under predecessor, body well-formed, control lines only inside inserts of their own ancestors, every live delta retrievable |
| `History.RunKeepsInv` | src/sf-delta.cc:172-384 | the invariant holds in every reachable file |
| `History.RecordIsPermanent` | src/sf-delta.cc:324-384 | no later step changes which version was recorded for a delta, since sequence numbers are never reused |
| `History.CreateKeepsInv` | src/sf-admin.cc:349-448 | the body `^AI 1`, text, `^AE 1` of a new file satisfies the invariant and gives the text back |
| `History.CheckInKeepsInv` | src/sf-delta.cc:324-384 | a check-in under the next number over a live predecessor keeps the invariant, for every valid diff |
| `History.NullDeltaKeepsInv` | src/sf-delta.cc:273-322 | a null delta changes no body line and is retrieved as its predecessor's version |
| `History.AnyTextCanBeCheckedIn` | src/sf-delta.cc:324-384 | no check-in is ruled out: for every live predecessor and every text there is a valid diff, and the new delta then has exactly that text |
| `History.RmdelNeverFails` | src/sf-rmdel.cc:62-95 | in a reachable file a live delta without live successors is terminal, so removal ends in no error, and it is on no other live delta's chain |
| `History.RmdelKeepsInv` | src/sf-rmdel.cc:62-95 | a permitted removal keeps the invariant, in particular every other live delta's text |
| `History.RmdelIsSafe` | src/sf-rmdel.cc:62-95 | in every reachable file live deltas are closed under predecessor, a delta that passes the checks is cut out without error, and every selection without it sees the same lines |
| `History.WeaveInNested` | src/body-scanner.cc:383-534 | a check-in writes its control lines only inside insert blocks of its own ancestors |
| `History.RemoveNested` | src/body-scanner.cc:696-757 | removal keeps that nesting for what is left |
| `History.NestedTerminal` | src/body-scanner.cc:723-727 | a delta that is nobody's ancestor has no foreign control line inside its insert blocks |
| `History.ChainAvoids` | src/sf-rmdel.cc:62-72 | a delta without live successors is on no other live delta's ancestor chain |
| `Storage.StoredHistory` | src/base-reader.h:84-99 | the body any run leaves is read from the file as it was written and still shows each live delta's version |
| `Storage.StoredFile` | src/parser.cc:472-747 | the whole file any run leaves opens with a matching checksum, the table that was written, and a body in which that table's chains show every version still there |
| `Storage.StoredBinary` | src/bodyio.cc:198-251 | a binary file checked in as its encoded lines comes back byte for byte after any run |
| `Removal.CheckInCorrect` | src/body-scanner.cc:297-535 | for every body, selection and valid diff, the body written under a fresh n shows under the selection plus n exactly the new text; kept lines keep their owner and new lines belong to n |
| `Removal.CheckInWellFormed` | src/body-scanner.cc:297-535 | a check-in keeps the body well-formed and adds no number but n |
| `Removal.ExactUndo` | src/body-scanner.cc:667-757 | removing n from what the check-in of n wrote gives the old body back, line for line |
| `Removal.NonInterference` | src/body-scanner.cc:383-534 | every selection without n sees the same lines with the same owners before and after the check-in of n |
| `Removal.SafeRemoval` | src/body-scanner.cc:696-757 | removing a terminal delta succeeds, leaves a well-formed body without its number, and no selection without it sees a difference |
| `Removal.FittingScriptIsSafe` | src/body-scanner.cc:297-535 | for any script that fits the old text: well-formed result, the patched version for the selection plus n, no difference for selections without n, and an exact undo |
| `Removal.RemoveSucceedsIffTerminal` | src/body-scanner.cc:711-756 | on a well-formed body removal succeeds exactly when no foreign control line lies in an insert block of n; otherwise the error is "non-terminal delta" and never another |
| `Removal.RemoveOnAnyBody` | src/body-scanner.cc:667-757 | on any body, success means that every start of n has its end, leaves no control line of n, and takes away nothing else if n inserts nothing |
| `Removal.RemoveErrors` | src/body-scanner.cc:715-756 | which error each misplaced line, and an open block at the end, leads to |
| `Removal.RemoveKeepsTheRest` | src/body-scanner.cc:696-757 | the line-by-line induction behind safe removal, for any open blocks and scan state |
| `Removal.RemoveUndoesWeaveIn` | src/body-scanner.cc:667-757 | the line-by-line induction behind the exact undo, also while `^AD n` is open across copied lines |
| `CheckIn.WeaveInView` | src/body-scanner.cc:297-535 | from any point of the body on, the new body shows the rest of the patched version, also while `^AD n` stays open |
| `CheckIn.WeaveInBlocks` | src/body-scanner.cc:297-535 | whatever the script, every line written is legal where it stands; the blocks open at the end are those of the old body, and `^AD n` exactly if the script goes on to delete past the last old line |
| `CheckIn.WeaveInLegal` | src/body-scanner.cc:297-535 | for a script that fits, the same blocks are open at the end |
| `CheckIn.WellFormedIffClosed` | src/body-scanner.cc:495-526 | for any script, the new body is well-formed exactly when the script does not go on to delete past the end of the old text |
| `CheckIn.OverlongDiffLeavesBlockOpen` | src/body-scanner.cc:495-526 | deleting two lines of a one-line text leaves a body that is not well-formed |
| `CheckIn.WeaveInNumbers` | src/diff-state.cc:272-287 | no number other than n is added and none is lost |
| `CheckIn.SettleReads` | src/diff-state.cc:261-319 | the lines written before one old line are legal, leave `^AD n` open exactly when that line is deleted, and show exactly the pending insertions |
| `CheckIn.SettlePatch` | src/body-scanner.cc:383-488 | settling one old line consumes exactly that line of the script: pending insertions, then the line unless deleted, then the rest |
| `Weave.DispositionRule` | src/seqstate.cc:161-237 | a text line of a legal body is shown exactly when the innermost open insert is selected and no selected larger delete is open, and it is owned by that insert |
| `Weave.InnermostIsTop` | src/seqstate.cc:148-160 | in a legal body the largest open insert is the one opened last and not yet closed |
| `Weave.LegalIsReadable` | src/seqstate.cc:241-316 | on a well-formed body `start` and `end` never fail |
| `SequenceState.DispositionIsVisibility` | src/seqstate.cc:199-236 | comparing the three maxima amounts to visibility, and the largest selected insert is then the innermost block |
| `SequenceState.HighestIsTop` | src/seqstate.cc:164-197 | the three running maxima are the largest selected insert, unselected insert and selected delete that are open |
| `SequenceState.SeqState.RunningMaxima` | src/seqstate.cc:164-197 | one pass over the table yields those three maxima |
| `SequenceState.SeqState.DecideDisposition` | src/seqstate.cc:161-237 | the flag becomes "visible to the selection", and then the active number is the line's owner |
| `SequenceState.SeqState.Start` | src/seqstate.cc:241-284 | succeeds exactly for a known letter and an idle number in range; opens that block, or changes nothing |
| `SequenceState.SeqState.End` | src/seqstate.cc:287-316 | succeeds exactly for an active number; closes its block, or changes nothing |
| `SequenceState.SeqState.constructor` | src/seqstate.cc:33-53 | nothing is tagged and no block is open |
| `SequenceState.SeqState.Copy` | src/seqstate.cc:56-63 | the copy has the same tags and open blocks in a table of its own |
| `SequenceState.SeqState.SetIncluded` | src/seqstate.cc:101-109 | the number is included and loses the other tags; nothing else changes |
| `SequenceState.SeqState.SetExcluded` | src/seqstate.cc:120-126 | the number is excluded and loses the other tags; nothing else changes |
| `SequenceState.SeqState.SetIgnored` | src/seqstate.cc:111-118 | the number is ignored and loses the other tags; nothing else changes |
| `DiffScript.CompileMeansNewVersion` | src/diff-state.cc:142-255 | consuming a diff one line at a time patches any version as its hunks say, with owners |
| `DiffScript.TallyBalances` | src/body-scanner.cc:418-501 | deleted + unchanged is the old length and inserted + unchanged is the new length |
| `DiffScript.SettleIsRepeatedProc` | src/body-scanner.cc:383-488 | the loop that repeats `process` while it inserts does what settling one line does |
| `DiffCursor.PlanFollowsScript` | src/diff-state.cc:261-319 | in every position of a valid diff, closing the spent run, opening the next and using one line is exactly one move of the script |
| `DiffCursor.DiffState.constructor` | src/diff-state.h:71-79 | the cursor starts before the first line, at the beginning of the diff if the input is a valid one |
| `DiffCursor.DiffState.ObeyCommand` | src/diff-state.cc:142-254 | exactly when a command is accepted, and the run it starts, by its line numbers; for the command of a hunk k lines ahead it starts a run of k unchanged lines, or the change with the right line counts, and never fails |
| `DiffCursor.DiffState.PassDivider` | src/diff-state.cc:77-98 | succeeds exactly when the next line is the divider, and then turns to the insertions of the change; on a valid diff it is there |
| `DiffCursor.DiffState.NextState` | src/diff-state.cc:74-255 | on a valid diff it never reaches a corrupt-output exit and moves on to the next run |
| `DiffCursor.DiffState.Refill` | src/diff-state.cc:264-287 | counts the old line, and when a run is spent writes its end and the start of the next, whatever the diff |
| `DiffCursor.DiffState.TakeLine` | src/diff-state.cc:288-316 | uses one line of the run, and fails exactly when a quoted line of the right kind is missing; on a valid diff it is there |
| `DiffCursor.DiffState.Process` | src/diff-state.cc:261-319 | whatever the diff, writes the end of the last run and the start of the next, or nothing; on every valid diff it never fails and makes exactly the moves of the script; the counters follow the old and new lines consumed, and inserting uses up input, so the insert loops end |
| `DiffFormat.RenderApplies` | src/diff-state.cc:142-255 | the output for any list of hunks, read by its line numbers, makes exactly the text that the hunks describe |
| `DiffFormat.AppliesIsRender` | src/diff-state.cc:142-255 | whatever output applies to a text is that of a list of hunks that makes the same text |
| `DiffFormat.AddedAfter` | src/diff-state.cc:161-176 | an `a` command puts its lines after old line l1 |
| `DiffFormat.DeletedRange` | src/diff-state.cc:177-192 | a `d` command takes old lines l1 to l2 away |
| `DiffFormat.ChangedRange` | src/diff-state.cc:243-250 | a `c` command puts its lines in the place of old lines l1 to l2 |
| `DiffFormat.TallyIsQuoted` | src/body-scanner.cc:418-501 | inserted and deleted are the numbers of lines quoted with `>` and `<` |
| `BodyScanner.ReadFrom` | src/body-scanner.cc:129-243 | reads to the end exactly when every control line is acceptable, and collects exactly the visible lines with their owners |
| `BodyScanner.Get` | src/body-scanner.cc:81-243 | succeeds exactly on a body that starts with `^AI` and is readable; returns the version the selection sees, each line with the delta to blame |
| `BodyScanner.Feed` | src/body-scanner.cc:321-366 | accepts a control line exactly when number and state allow it, and then opens or closes that block |
| `BodyScanner.SettleLine` | src/body-scanner.cc:383-488 | ends; whatever the diff, writes what settling the additions made and one verdict writes, and counts the additions; on a valid diff these are the ones due |
| `Moves.SettleVerdict` | src/body-scanner.cc:383-488 | what additions and a verdict write does not depend on what follows, and leaves `^AD n` open exactly for a deletion |
| `Moves.LeadCounts` | src/body-scanner.cc:418-482 | additions and a verdict use up one old line, and count as such |
| `BodyScanner.WeaveLine` | src/body-scanner.cc:299-533 | one line of the old body: invisible and control lines are copied, a visible one is settled first and counted as deleted or unchanged |
| `BodyScanner.WeaveBody` | src/body-scanner.cc:297-535 | whatever the diff, a loop that succeeds writes the old body with the script of its moves woven in, which fits the old text unless it deletes past the end; for a valid diff it writes exactly the woven body and the tally of the script |
| `BodyScanner.PerformSettle` | src/body-scanner.cc:383-488 | the moves made for one visible line extend the account of what is written and counted |
| `BodyScanner.Delta` | src/body-scanner.cc:272-541 | whatever the diff, success means a readable old body and a new one that is the old with some script woven in, fitting unless it deletes past the end, with the script's tally; on a readable balanced body and output that applies to the old text it cannot fail, weaves the change in, counts the quoted lines, and its totals are the lengths of the old and the new text |
| `BodyScanner.TallySettle` | src/body-scanner.cc:383-488 | the counters kept for one old line add up to the tally of the whole script |
| `BodyScanner.RemoveDelta` | src/body-scanner.cc:696-757 | the loop computes the removal, with the three errors in the cases where it reports them |
| `SccsFiles.SccsFile.Create` | src/sf-admin.cc:349-448 | a new file is the create step of the history, with one delta that holds each field of what was given and whose inserted count is the length of the text |
| `SccsFiles.SccsFile.Get` | src/sf-get.cc:190-221 | fails exactly when no live delta has the SID; otherwise returns the version that was checked in as the delta found, each line with the delta that brought it in |
| `SccsFiles.SccsFile.Rmdel` | src/sf-rmdel.cc:46-108 | succeeds exactly when there is a live delta with the SID that no live delta descends from or lists; then its entry is marked and it is the removal step of the history, and otherwise nothing changes |
| `SccsFiles.SccsFile.InUse` | src/sf-rmdel.cc:62-81 | for every table: true exactly when some live delta has the number as predecessor or in one of its three lists |
| `SccsFiles.SccsFile.FindRemovable` | src/sf-rmdel.cc:53-81 | for every table: passes exactly when there is a live delta with the SID that no live delta uses, and then gives it |
| `SccsFiles.SccsFile.AddDelta` | src/sf-delta.cc:93-414 | succeeds exactly when the locked delta exists; the version compared is the one recorded for it; then it is a run of the history that ends with the check-in, and the table is, field by field, the new delta with its counts and its text, a null delta for each release in between if they are wanted, and the old entries |
| `Commands.CommandKeepsSids` | src/sf-delta.cc:273-384 | starting from unambiguous SIDs, every command leaves them so exactly unless it is a check-in one of whose null deltas takes a SID that is live or pending |
| `Commands.WithoutNullsSidsStayDistinct` | src/sf-get2.cc:182-335 | without null deltas, in every run of create, edit, unedit, check-in and removal no two live deltas share a SID and no pending edit has a live one |
| `Commands.SidTheorem` | src/delta-table.cc:84-98 | in every run whose null deltas take free SIDs, the entry found under a SID has the text that the last command to make that SID checked in, and the body shows it |
| `Commands.NullDeltasMayDuplicate` | src/sf-delta.cc:295-321 | with joint edits and null deltas and 3.1 alone, two edits of release 5 are given 5.1 and 5.2, and their check-ins leave two live deltas 4.1 |
| `SccsFiles.SccsFile.PrependNulls` | src/sf-delta.cc:273-322 | one null delta for each release in the gap, numbered upwards, each the predecessor of the next |
| `SccsFiles.NullEntries` | src/sf-delta.cc:295-321 | each null delta field by field: the first level of its release, the MRs of the new delta, the fixed comment, no counts, and the one before it as predecessor |
| `SccsFiles.DeltaOverEntries` | src/sf-delta.cc:273-384 | the whole table after a check-in, entry by entry |
| `SccsFiles.SccsFile.Select` | src/sf-get.cc:51-188 | for every table: on success the reader holds the three-pass selection, which without stored lists is exactly the ancestor chain |
| `SccsFiles.SccsFile.Retrieve` | src/sf-delta.cc:177-232 | a copy of the reader retrieves the version, and the reader itself is left as it was set up |
| `SccsFiles.SccsFile.WeaveDelta` | src/sf-delta.cc:172-384 | retrieving, adding null deltas and weaving together write the table and the body of a permitted run, with balanced counts |
| `SccsFiles.NullsRun` | src/sf-delta.cc:273-322 | writing the null deltas is a run of null-delta steps, and the last one has the first predecessor's version and selection |
| `SccsFiles.AddDeltaRun` | src/sf-delta.cc:273-384 | null deltas plus check-in form a run whose body is the one woven for the delta that was retrieved, not for the last null delta |
| `SccsFiles.RmdelStep` | src/sf-rmdel.cc:62-95 | marking the entry 'R' and cutting it out of the body is the removal step, and is permitted |
| `SccsFiles.RetrievesVersion` | src/sf-get.cc:58-76 | the version that `get` reads for a live entry of a reachable file is its recorded one, and the body is readable to its end |
| `SccsFiles.IndexIsByNumber` | src/delta-table.h:116-127 | lookup through the index agrees with a linear scan for the last match |
| `Selection.TagAncestors` | src/sf-get.cc:58-76 | includes exactly the ancestor chain (and 0), and cannot fail when predecessors exist and are older |
| `Selection.TagList` | src/sf-get.cc:93-103 | fails exactly when the list names a later delta; otherwise exactly its members other than the owner get the tag |
| `Selection.IncludePass` | src/sf-get.cc:78-105 | one descending pass yields the least set that contains the chain and is closed under include lists |
| `Selection.ExcludePass` | src/sf-get.cc:107-134 | one ascending pass excludes exactly the union of the exclude lists of that set |
| `Selection.IgnorePass` | src/sf-get.cc:137-167 | one descending pass ignores exactly the union of the ignore lists of deltas not themselves ignored |
| `Selection.IgnoredIsUnique` | src/sf-get.cc:137-167 | that description of the ignored set has only one solution |
| `Selection.PrepareSeqState` | src/sf-get.cc:51-188 | the three passes together, by the stored lists: least closed set, less its exclusions, less the ignored; no number ends with two tags |
| `Selection.PlainSelection` | src/sf-get.cc:58-167 | without stored lists the selection is the ancestor chain |
| `Selection.ChainIsWalk` | src/sf-get.cc:58-75 | the chain of a delta is what a walk up its predecessors meets |
| `DeltaTables.DeltaTable.UpdateHighest` | src/delta-table.h:43-60 | highest number and highest release stay right for one more entry |
| `DeltaTables.DeltaTable.Add` | src/delta-table.h:99-105 | appends the entry and keeps index, highest number and highest release |
| `DeltaTables.DeltaTable.AddAll` | src/delta-table.h:107-114 | appends all entries and keeps the same |
| `DeltaTables.DeltaTable.Prepend` | src/dtbl-prepend.cc:38-47 | puts the entry in front and keeps the same |
| `DeltaTables.DeltaTable.NextSeqno` | src/delta-table.cc:59-65 | a number no live or removed delta has; 0 when the 16-bit counter wraps |
| `DeltaTables.DeltaTable.Find` | src/delta-table.cc:84-98 | the first live entry with the SID, and none exactly when there is none |
| `DeltaTables.DeltaTable.FindAny` | src/delta-table.cc:104-118 | the first entry with the SID, removed or not, and none exactly when there is none |
| `DeltaTables.HighestReleaseIsTrunk` | src/delta-table.h:48-59 | the high release is a trunk SID, and then the greatest live one, exactly when no live SID without a level that follows a trunk SID exceeds all live trunk SIDs |
| `DeltaTables.HighestReleaseMayLeaveTrunk` | src/delta-table.h:55-58 | with 1.1 followed by 2 in the table the high release can only be 2, which is not on the trunk |
| `LoopCheck.Explore` | src/sf-val.cc:56-77 | the walk ends, and ends well exactly when the chain reaches 0; everything it marked as seen is at or above the lowest number visited |
| `LoopCheck.Mark` | src/sf-val.cc:79-91 | only numbers whose chain reaches 0 are marked loop-free, and no mark is lost |
| `LoopCheck.CheckLoopFree` | src/sf-val.cc:37-96 | true exactly when the predecessor chain reaches 0; marks stay sound over any series of calls, and `seen` is wiped clean |
| `LoopCheck.CycleNeverEnds` | src/sf-val.cc:66-72 | a walk that meets a number twice never reaches 0 |
| `RangeLists.Insert` | src/sid_list.h:173-224 | inserting a range into a normal list gives a normal list with exactly the union of the members |
| `RangeLists.RangeList.Clean` | src/sid_list.h:160-234 | sorted, no ranges overlapping or adjacent, same members; the list stays valid exactly when no range runs backwards |
| `RangeLists.RangeList.Merge` | src/sl-merge.h:34-62 | the members are exactly the union; nothing happens when either list is invalid |
| `RangeLists.RangeList.IsMember` | src/sid_list.h:236-251 | true exactly when some range holds the SID |
| `RangeLists.MergedHolds` | src/sid_list.h:189-200 | the smallest range around two ranges that touch holds nothing else |
| `RangeLists.SuccIsNext` | src/sid.h:151-185 | in a family nothing lies between a SID and its successor |
| `RangeLists.EverySidHasItsFamily` | src/sid.h:86-95 | every whole SID belongs to one of the families that the range lists are about |
| `Sids.OrderIsNumeric` | src/sid.cc:105-167 | release, level and number on the branch compare like the digits of a number |
| `Grammar.ComparableExactlyWhen` | src/sid.cc:87-103 | which SIDs can be compared |
| `Grammar.PredUndoesSucc` | src/sid.h:151-185 | stepping back undoes stepping on |
| `NextSids.SidInUse` | src/sf-get2.cc:166-177 | true exactly for the SID of a live delta or a pending edit |
| `NextSids.FreeLevel` | src/sf-get2.cc:199-206 | the search ends with the lowest free level above the request |
| `NextSids.FreeBranch` | src/sf-get2.cc:322-331 | the search ends with the first branch that no live delta (nor, with joint edits, pending edit) uses |
| `NextSids.Collides` | src/sf-get2.cc:232-290 | whether the candidate is being edited, and whether it forces a branch, in terms of the table and the p-file |
| `NextSids.FindNextSid` | src/sf-get2.cc:180-335 | ends; with joint edits on always a SID used by no live delta and no pending edit: the candidate, or the first free branch when the candidate is taken or a fork is forced |
| `NextSids.OldReleaseForks` | src/sf-get2.cc:293-319 | when fewer than three components were requested and a live trunk delta has a later release, whatever is chosen branches off what was retrieved |
| `NextSids.CeilingForks` | src/sf-get2.cc:228-230 | so does a trunk request above the ceiling |
| `NextSids.TakenSidForks` | src/sf-get2.cc:232-290 | so does a request whose next SID is taken |
| `NextSids.WantedBranchForks` | src/sf-get2.cc:217-223 | so does one for which a branch is wanted and allowed |
| `NextSids.NextInLine` | src/sf-get2.cc:198-215 | in all other cases the next SID in line is chosen: lowest free level, next level or next number |
| `NextSids.SoloEditFailures` | src/sf-get2.cc:258-290 | with joint edits off, which requests are refused and which run into the final assertion |
| `NextSids.DefaultReplacesRequest` | src/sf-get2.cc:190-193 | a default SID takes the place of whatever was requested |
| `NextSids.JointEditIsFresh` | src/sf-get2.cc:322-334 | with joint edits on the final assertion holds |
| `NextSids.SoloEditIsFreshExactlyWhen` | src/sf-get2.cc:272-334 | with joint edits off it holds exactly when the candidate is not being edited and the branch (or the candidate) is not pending |
| `NextSids.SoloEditFirstBranch` | src/sf-get2.cc:322-334 | with joint edits off and 1.1 and 1.1.1.1 in the table, the first editor of either who asks for a branch is given 1.1.2.1 |
| `NextSids.SoloEditMayCollide` | src/sf-get2.cc:326-333 | a second editor, of the other one, is led to the same pending 1.1.2.1 and runs into the final assertion |
| `Decimal.StrictAtous` | src/base-reader.cc:31-54 | accepts exactly non-empty digit strings of value at most 65535 and returns that value |
| `Decimal.PrintValue` | src/sf-write.cc:125-130 | a printed number has its own value |
| `Decimal.PaddedValue` | src/sf-write.cc:143-146 | zero padding does not change the value |
| `Decimal.PaddedLength` | src/sf-write.cc:143-146 | a number below 10^w printed with width w takes exactly w characters |
| `Decimal.PrintExample` | src/sf-write.cc:125-130 | the digits stand in the usual order |
| `HeaderText.SidRoundTrip` | src/sid.cc:45-85 | parsing a printed full SID gives it back |
| `HeaderText.DateRoundTrip` | src/sccsdate.cc:252-337 | parsing a printed date in 1969-2068 gives it back |
| `HeaderText.SidFormat` | src/sid.cc:296-314 | a printed SID is its components separated by dots, as many as it has |
| `HeaderText.PartialSidFormat` | src/sid.cc:296-314 | printing stops at the first component that is zero |
| `HeaderText.DateFormat` | src/sccsdate.cc:339-402 | where year, month, day and time stand in a printed date |
| `HeaderText.MonthDays` | src/sccsdate.cc:73-123 | the days of each month, and the leap years |
| `Grammar.DateIsValidExactlyWhen` | src/sccsdate.cc:518-530 | the range of every part of a date |
| `Grammar.PlainDate` | src/sccsdate.cc:303-337 | every part of a date is read from its place, with the century by windowing |
| `Grammar.FaultyDate` | src/sccsdate.cc:284-301 | a first character past '9' stands for the digit ten before it |
| `Grammar.FourDigitDate` | src/sccsdate.cc:260-282 | a four-digit year is taken as it stands |
| `Grammar.OtherDateIsRefused` | src/sccsdate.cc:303-311 | text of another length, or without a time, is no date |
| `Grammar.StrangeSidIsRefused` | src/sid.cc:45-85 | text with anything but digits and dots is no SID |
| `Grammar.EmptyComponentIsRefused` | src/sid.cc:50-53 | nor is text with an empty component |
| `Grammar.FifthComponentIsRefused` | src/sid.cc:81-84 | nor is text with a fifth component |
| `Grammar.ReleaseIsNotZero` | src/sid.cc:81-84 | no SID that is read has release 0 |
| `Grammar.ShortWraps` | src/sid.cc:55-64 | components are kept modulo 65536 as signed 16-bit numbers |
| `DeltaRecords.RecordRoundTrip` | src/parser.cc:154-363 | reading what was written gives the same delta: type, SID, date, user, numbers, lists, MRs, comments and counts, whatever follows in the file |
| `DeltaRecords.RecordCaps` | src/cap.cc:47-51 | counts above 99999 are read back as 99999, as numbers, and nothing else changes |
| `DeltaRecords.CountsFormat` | src/sf-write.cc:143-146 | where the three counts stand in their line, in five digits each |
| `DeltaRecords.RecordFormat` | src/sf-write.cc:147-187 | the letter of each line of a record and the fields it holds |
| `DeltaRecords.SeqTextFormat` | src/sf-write.cc:125-130 | the numbers of a list stand in order with single spaces between |
| `Grammar.HeadGrammar` | src/parser.cc:167-217 | exactly when the first two lines of a record are accepted, and what they mean |
| `Grammar.CountGrammar` | src/parser.cc:376-409 | which line counts are accepted: spaces, digits, then the end or a space |
| `Grammar.ListGrammar` | src/parser.cc:224-300 | what an optional list line means |
| `Grammar.SeqsGrammar` | src/parser.cc:256-296 | a list is accepted exactly when every piece between spaces is a 16-bit number |
| `Grammar.MarkGrammar` | src/parser.cc:310-354 | what each MR or comment line means, and which line ends them |
| `Grammar.RecordEnds` | src/parser.cc:356-360 | a record ends with `^Ae` alone on its line |
| `DeltaRecords.RecordUnbroken` | src/sf-write.cc:140-188 | such a record takes up whole lines: no field, list, MR or comment breaks one |
| `Grammar.WhatCanBeWritten` | src/sf-write.cc:140-188 | which deltas the round trip holds for |
| `Grammar.WhatIsPlain` | src/sf-write.cc:212-217 | which users, comments, flags and text lines can be stored |
| `DeltaRecords.WriteDelta` | src/sf-write.cc:140-188 | writes exactly the record |
| `DeltaRecords.PrintSeqs` | src/sf-write.cc:118-135 | writes one list line, or nothing for an empty list |
| `DeltaRecords.ReadDelta` | src/parser.cc:154-363 | reads exactly what the record's grammar describes, and fails exactly where it does |
| `DeltaRecords.ReadSeqs` | src/parser.cc:256-296 | reads the numbers of a list line, and fails exactly on a bad one |
| `DeltaRecords.ReadMarks` | src/parser.cc:310-354 | reads MR and comment lines in any order |
| `DeltaRecords.CountRoundTrip` | src/parser.cc:369-418 | a line count up to 99999 is read back from its five digits |
| `BodyText.LineRoundTrip` | src/base-reader.h:84-99 | a line fits on one line of the file and is read back as written exactly when it is a control line with a 16-bit number or text without a newline that does not look like a control line |
| `BodyText.BodyRoundTrip` | src/base-reader.h:84-99 | a body written to the file as characters is read back exactly when all its lines are of that kind |
| `BodyText.ControlFormat` | src/diff-state.cc:274-286 | what a control line looks like |
| `Grammar.BodyLineGrammar` | src/body-scanner.cc:321-366 | exactly which control lines are accepted |
| `Grammar.TextLineGrammar` | src/base-reader.h:95-98 | any other line is text |
| `HeaderText.LinesRoundTrip` | src/base-reader.h:108-119 | lines written with newlines after them are read back exactly when none contains a newline |
| `Checksum.CountsFit` | src/sf-add.cc:79-84 | rewriting the head of the file turns the newest delta's record into the one with the new counts, for all counts, and touches nothing else |
| `Checksum.SumFits` | src/sf-write.cc:566-570 | the checksum overwrites exactly its placeholder, is read back, and does not change what it covers |
| `Checksum.FlipFits` | src/sf-write.cc:452-459 | flipping the flag from 0 to 1 adds one to the checksum modulo 65536 |
| `Checksum.ComputeSum` | src/parser.cc:519-563 | the loop computes the 16-bit sum of everything after the first line, for signed or unsigned characters |
| `Checksum.SumConcat` | src/parser.cc:524-529 | the sum of a text is the sum of its parts |
| `Checksum.SumOfOne` | src/parser.cc:529 | a character counts as its code, or as the signed number equal to it modulo 256 |
| `Checksum.SumOfFile` | src/parser.cc:519-563 | the checksum of a file is the sum of what is below its first line, modulo 65536 |
| `Checksum.UpdatedStarts` | src/sf-write.cc:566-570 | the first line of an updated file is `^Ah` and the sum in five digits |
| `Checksum.RehackEncodedFlag` | src/sf-write.cc:428-485 | fails exactly when no line starts with the flag; otherwise the first one is flipped if 0, nothing else changes, and the sum is adjusted |
| `Checksum.FirstFlag` | src/sf-write.cc:440-480 | the first place where the flag is found in the characters is the first flag line, and changing it there changes that line |
| `Checksum.SetEncodedFlag` | src/sf-write.cc:555-563 | succeeds exactly when there is a flag line; sets the first one and keeps the sum right |
| `Checksum.EndUpdate` | src/sf-write.cc:505-577 | fails exactly when a flag is to be set and there is none; otherwise the file is its lines (flag set if need be) under a checksum that is what a reader computes |
| `Checksum.EndUpdateWithDelta` | src/sf-add.cc:67-95 | the same for a file that starts with the record of a new delta, whose counts are patched in first |
| `FileHeaders.TableRoundTrip` | src/parser.cc:642-653 | a list of records written in order is read back, whatever follows |
| `Grammar.TableGrammar` | src/parser.cc:642-653 | records are read as long as a line starts with `^As` |
| `FileHeaders.HeaderRoundTrip` | src/parser.cc:642-737 | table, users, flags and comments are read back as written, whatever body follows |
| `FileHeaders.ReadHeader` | src/parser.cc:642-737 | reads exactly what the header's grammar describes, and fails exactly where it does |
| `FileHeaders.WriteHeader` | src/sf-write.cc:194-426 | writes the sections in order |
| `FileHeaders.SectionsFormat` | src/sf-write.cc:207-416 | the lines below the delta table, in order, with their letters |
| `FileHeaders.FlagFormat` | src/sf-write.cc:225-395 | a flag line is `^Af`, the letter and the argument |
| `Grammar.SectionsGrammar` | src/parser.cc:655-735 | which lines below the delta table are accepted |
| `Grammar.FlagGrammar` | src/parser.cc:682-706 | which flag lines are accepted, and what they mean |
| `FileImages.FlipImage` | src/sf-write.cc:428-485 | setting the first flag found in the file sets the header's encoded flag and nothing else; there is one exactly when the header has it |
| `FileImages.UpdatedFileOpens` | src/parser.cc:472-747 | the file an update leaves opens as the header and the body that were written, with a matching checksum |
| `FileImages.Save` | src/sf-rmdel.cc:85-105 | a file written with its table as it stands opens as that header and body |
| `FileImages.SaveWithDelta` | src/sf-add.cc:40-95 | a file written with a new delta in front opens as that header, with the delta and its counts (capped at 99999), and the body |
| `Encoding.GroupRoundTrip` | src/encoding.cc:59-87 | decoding four characters gives the three bytes back |
| `Encoding.LineRoundTrip` | src/encoding.cc:91-145 | decoding an encoded line gives the bytes back, and all its characters are printable |
| `Encoding.FileRoundTrip` | src/bodyio.cc:198-251 | for every byte string, decoding the lines and concatenating them gives it back; no line looks like a control line or contains a newline |
| `Encoding.GroupBits` | src/encoding.cc:54-67 | the four characters hold the 24 bits in order, six each, plus 32 |
| `Encoding.LineFormat` | src/encoding.cc:112-145 | the length mark and the length of an encoded line |
| `Encoding.FileFormat` | src/bodyio.cc:204-241 | one line for every 45 bytes, in order, and a line with a space at the end |
| `Encoding.EncodeLineLoop` | src/encoding.cc:112-145 | the loop with its zero-padded tail writes the encoded line |
| `Encoding.DecodeLineLoop` | src/encoding.cc:92-108 | the loop decodes as many groups as the length mark asks for and keeps that many bytes |
| `Encoding.BodyInsertBinary` | src/bodyio.cc:198-251 | writes the lines of the encoded file and counts them |
| `Encoding.EncodeStream` | src/encoding.cc:147-172 | writes exactly the same lines |

## Left out

- Command-line programs, option parsing, prompts and the `sccs` front end.
- Files, locks, privileges, signals, renames and write errors: streams are sequences of lines (or of characters, in `Checksum`), and writing always succeeds.
- Running `diff`: any valid normal-format output is an input. "No newline at end of file" lines and the echo option are dropped.
- Raw line buffering and file positions; lines arrive already split. A line-length limit is not modelled.
- Explicit -i/-x lists, cutoff dates and stored lists inside the history; stored lists are covered by the selection passes alone.
- `find_requested_sid`: the SID given to `SccsFile.Get` is an exact one.
- `range_list::remove` and the parsing of range lists from text.
- Keyword expansion, module and SID prefixes on retrieved lines, the meaning of flags other than those of the SID allocator, permissions by user, prs/prt, `what`, BitKeeper files.
- `validate_isomorphism` and the other parts of `val`.
- Debug output, warnings, and the wording of error messages.
- The class `SccsFile` keeps table and body as values; that they survive being written to a file and opened again is proved in `FileImages` and `Storage`, and the class does not write the file itself.
- NUL characters in lines, at which the program's strings end.
- DiffCursor.DiffState.ObeyCommand: diff lines arrive as commands with numbers, so the reading of digits and the check for trailing characters are not modelled, nor are line numbers that do not fit an `int`.
- BodyScanner.Feed: control letters other than I, D and E have no constructor; they are refused by `BodyText.ParseLine` when the file is read.
- BodyScanner.RemoveDelta: for the same reason such a line is refused before removal starts, while the program copies it.
- BodyScanner.Delta: for an invalid diff the script is some script, made of the moves of the cursor; which one is not stated, nor at which line corrupt output makes the program stop.
- SccsFiles.SccsFile.AddDelta: takes a valid diff as given and does not model the lock entry of the p-file that is deleted, nor permissions; locks with include or exclude lists, and tables with stored lists, are outside the history, because such lists change a version's selection between check-in and retrieval (an include on the command line is not recursive, a stored one is).
- SccsFiles.SccsFile.Rmdel: tables with stored lists are outside the history; the checks themselves are stated for every table by `SccsFiles.SccsFile.FindRemovable`.
- SccsFiles.SccsFile.PrependNulls: the escape from the loop after 10000 null deltas is not modelled.
- SequenceState.SeqState.constructor: a table whose highest number is 65535 is excluded, because the first loop over it never ends.
- SequenceState.SeqState.SetIncluded: the flags "explicit" and "non-recursive" are kept in the table, and no property of them is stated.
- LoopCheck.CheckLoopFree: when a predecessor is missing the program stops at once, so nothing is said about `seen` then.
- RangeLists.RangeList.Clean: the SIDs belong to the trunk or to a single branch; across branches the comparison of SIDs is not an order. The linked list is a sequence, so relinking of nodes is not modelled.
- RangeLists.RangeList.Merge: the same restriction to one family of SIDs.
- NextSids.FindNextSid: the components of a SID are unbounded; a search that overflows 16 bits is not modelled.
- HeaderText.SidRoundTrip: the conversion of each component to 16 bits is modelled, an overflow of `int` while reading digits is not.
- FileHeaders.WriteHeader: flags are a list of letters with arguments, in the order in which they are written; which flags a file has is not modelled.
- DeltaRecords.ReadDelta: a record with fewer than seven fields is refused, where the program would use unset pointers; a leading plus sign or tab in a line count, and comment lines with an unknown third character, are read as the plain grammar says and not as `strtoul` or the BitKeeper rules do.
- Checksum.ComputeSum: the sum is kept unbounded and reduced once, which agrees with the program as long as `int` does not overflow.
- Encoding.DecodeLineLoop: a line cut short of what its length mark asks for is excluded; the program reads past its end.
