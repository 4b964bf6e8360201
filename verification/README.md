# Verified model of the Akzio daemon's core protocols

A Dafny model of the parts of Akzio where a mistake loses evidence, repeats a provider call or
misreports money, with proofs of what those parts promise. `dafny verify dfyconfig.toml` checks
the whole project.

## The crash-safe run log

Each formal Run writes a plaintext log; each stage's log is sealed into an immutable ZIP,
confirmed in the Store, and only then removed. After a crash the leftovers are recovered before
anything new is served.

- `RunLogScan` is the log scanner and what its bookkeeping means; `RunLogClosure` is what
  recovery appends to an interrupted log; `FlowWindow` is the paged copy of a Run's Store events;
  `Checksums` is the checksum list inside an archive.
- `RunLogProtocol` is the durable protocol as a state machine: one step per durable write or
  memory update, and a crash that may follow any of them. `RunLogSafety` proves its invariant and
  the results about whole runs: no event loss, immutable archives, no blind replay.
- `RunLogArchive` says when an archive verifies, which events it holds, what recovery tells the
  Store, and exactly which leftovers can be recovered. `RunLogRecovery` says which Runs recovery
  blocks, which it leaves alone, and when it succeeds as a whole. `RunLogHistory` holds whole
  histories, one of them stuck.
- `RunLogger` is the logger itself, a class whose every effect is one protocol step;
  `RunLogEffects` states what its methods do to the state. They follow the code's order of
  effects; every failing I/O call or Store write is a free choice, and a failing write may or may
  not have landed. A logger built `reliable` has I/O that works, which makes recovery exact.

## The smaller cores

- `Dispatch`: the dependency worklist over a possibly cyclic task graph, against reachability.
- `ManagedPnl`, `PnlAccount`: average-cost profit and loss, fixed width against exact, and what
  its rounding conserves. `Benchmark`: bar parsing and the one-cursor merge against a lookup.
- `Submission`, `SubmissionCore`: client, HTTP mapping, tracked task and shutdown as one step
  system, and the same path in code order.
- `DecisionEvidence`, `DecisionAcceptance`, `DecisionGrid`: the two evidence validators compared,
  what makes them accept or refuse, and the certificates by counting. `Capacity`, `Dependencies`:
  checked fixed-width arithmetic and incidents.
- `EventStream`, `EventRoundTrip`: the chunked event-stream reader, and that it prints what was
  sent. `ResearchReview`: review checks and revision fingerprints.
- `Arithmetic`, `Ordering`, `Text`, `Wrappers` hold what they share.

## Assumptions

- SHA-256 does not collide: a digest is represented by what it digests, an issue's stable id by
  the fields it hashes.
- The Store is an append-only journal plus a set of accounted calls that only grows; a call may be
  accounted for at any moment, whether or not a process runs. Its uncertain-run query returns the
  Runs blocked for an unknown or unreconciled result, by a block entry or by an archive's
  integrity. One Core works on a Store at a time.
- The Store's events of a Run and the cursor at which they are frozen are given per archive, and
  for a whole recovery per leftover.
- A new segment's identity (a fresh UUID) was never used before. A committed run's identity is new.
  The Store lists each Run it requires a log of once.
- The session scheduler commits nothing when it reports an error other than an unknown
  submission, or reports nothing to reserve.
- An artifact identity names one artifact. Claim, critique, thesis and allocation-row checks are
  uninterpreted flags on the record.
- Times are integers; the closes, cursors and amounts are integers of the source's width.

## Where the code and its promises part

- **Recovery after a late crash.** `docs/run-log.md:19` promises that a restart completes
  unfinished archives. If the crash falls between the Store's `archived` entry and the removal of
  the plaintext, recovery computes the segment's predecessor from the Store, finds the segment
  itself, and refuses its own archive (`crates/akzio-daemon/src/run_log.rs:675-700` with 543-555).
  `RunLogArchive.ReverifiesExactly` states exactly when recovery re-verifies an archive,
  `RunLogHistory.StuckHistory` reaches the refusal from an empty directory and Store, and
  `RunLogger.RunLogger.RecoverOrphans` fails on it and leaves it as it was, so every later restart
  fails too. A leftover counts as stuck for its predecessor only while it is the one plaintext of
  its Run and stage: recovering another one first could change the predecessor. Nothing is lost:
  startup fails closed.
- **Disowning unnamed calls.** Recovery disowns an answered, unaccounted call even when its id is
  absent or repeated, and its own scan then rejects the log
  (`crates/akzio-daemon/src/run_log.rs:375-392` with 1640-1656). `RunLogClosure.RecoveryCloses`
  states exactly when the closed log is accepted. Every model call is given some id
  (`crates/akzio-model/src/responses.rs:146-149`); one formed from request hash and turn
  (`crates/akzio-research/src/agent/runtime_run.rs:624`) repeats when a second attempt sends the
  same request. `RunLogArchive.DisowningTwiceBreaks` is such a log. The closed log stays on disk,
  unreadable for good (`RunLogArchive.UnnameableBreaks`), and with I/O that works
  `RunLogger.RunLogger.RecoverFile` ends in exactly that; a crash between the two disowning
  records would still let the next recovery finish.
- **Chunk boundaries.** An invalid UTF-8 line discards the valid lines of its own chunk
  (`crates/akzio-cli/src/http_client.rs:241-254`), so what is printed before the error depends on
  the chunks. `EventStream.SplitBlindExactly` states exactly when it does not. The reader also
  prints unfinished data at the end of the stream and does not end a line at a lone carriage
  return, unlike section 9.2.6 of the HTML Living Standard; the model follows the code.
- **The event window** is copied only if an event sits exactly at the ceiling
  (`crates/akzio-daemon/src/run_log.rs:1384-1409`): `FlowWindow.WriteFlow`.
- **The incomplete-evidence warning** (`crates/akzio-domain/src/decision.rs:1071-1080`) never
  changes the evidence check's answer: `DecisionEvidence.SufficiencyExactly`.

## Model

| member | source | states |
|---|---|---|
| `RunLogScan.InspectSource` | crates/akzio-daemon/src/run_log.rs:1562-1663 | The one-pass scanner computes `Inspect`: it refuses torn, empty, mixed-identity or unpaired logs and otherwise returns the folded bookkeeping. |
| `RunLogScan.ScanConserves` | crates/akzio-daemon/src/run_log.rs:1618-1656 | On every accepted log the multiset of requested call ids is pending + answered + unknown, the answered ids are exactly the completed ones, and the disowned ids are exactly the marked ones. |
| `RunLogScan.ScanAcceptsExactly` | crates/akzio-daemon/src/run_log.rs:1629-1656 | A log is accepted iff every terminal or unknown record has an unmatched earlier request of its id and every disowning names an answered call not disowned before. |
| `RunLogScan.InspectAcceptsExactly` | crates/akzio-daemon/src/run_log.rs:1562-1627 | A file is accepted exactly if it is whole, all its records repeat one identity that fits its stage, and they pair up. |
| `RunLogScan.ScopesAreRequested` | crates/akzio-daemon/src/run_log.rs:1629-1641 | What is pending or answered are scopes of requests, each request once; an answer never brings a scope of its own. |
| `RunLogScan.TallyExactly` | crates/akzio-daemon/src/run_log.rs:1629-1656 | The counts these statements use are the numbers of request, answer, unknown and disowning records of each call id. |
| `RunLogScan.ActiveExactly` | crates/akzio-daemon/src/run_log.rs:1607-1617 | An attempt is reported active iff its last claim-or-result record is a claim. |
| `RunLogScan.ScanLength` | crates/akzio-daemon/src/run_log.rs:1534-1560 | The scan counts every line once and its active set is that of the incremental update. |
| `RunLogClosure.RecoveryCloses` | crates/akzio-daemon/src/run_log.rs:354-393 | Appending the closing records gives an accepted log iff the calls to disown carry present, distinct ids; then nothing is pending, the answered calls are unchanged and every unaccounted answer is marked. |
| `RunLogClosure.RecoveryResumes` | crates/akzio-daemon/src/run_log.rs:354-393 | After a crash that left any number of closing records behind, the next recovery writes exactly the rest, so the finished log is always the same. |
| `RunLogClosure.DisownExactly` | crates/akzio-daemon/src/run_log.rs:1640-1656 | A run of disowning records over answered calls is accepted iff the ids are present, distinct and not yet marked. |
| `RunLogClosure.UnknownCloses` | crates/akzio-daemon/src/run_log.rs:367-374 | Each unknown record closes the oldest pending request of its id; after all of them none is pending and each counts as unknown. |
| `RunLogClosure.UnaccountedExactly` | crates/akzio-daemon/src/run_log.rs:307-322 | The calls collected for disowning are exactly the answered ones without Store accounting, and none for a startup probe. |
| `RunLogClosure.ToDisownExactly` | crates/akzio-daemon/src/run_log.rs:375-392 | What remains to disown are exactly the unaccounted answers not already marked. |
| `FlowWindow.WriteFlow` | crates/akzio-daemon/src/run_log.rs:1351-1411 | The paged copy ends, succeeds iff the window is empty or an event sits exactly at the ceiling, and then wrote the window, for every page size. |
| `FlowWindow.WindowExactly` | crates/akzio-daemon/src/run_log.rs:1374-1411 | The window is the consecutive events with cursor in (after, ceiling], each once, in cursor order. |
| `FlowWindow.CopyNext` | crates/akzio-daemon/src/run_log.rs:1384-1409 | One page either advances the cursor over the next events or shows that no event sits at the ceiling. |
| `FlowWindow.CopyPage` | crates/akzio-daemon/src/run_log.rs:1392-1406 | Within one page, copying stops at the first event past the ceiling and never meets one out of order. |
| `RunLogSafety.StepKeepsInvariant` | crates/akzio-daemon/src/run_log.rs:738-942 | Every durable write, memory update and crash keeps the invariant tying plaintext, archives, journal, memory and doubt together. |
| `RunLogSafety.RunKeepsInvariant` | crates/akzio-daemon/src/run_log.rs:217-497 | The invariant holds after every prefix of every run, including crashes inside recovery. |
| `RunLogSafety.NoEventLoss` | crates/akzio-daemon/src/run_log.rs:1191-1266 | From any moment of a run to any later one: recorded lines stay at the front of what their name holds, published archives are unchanged, another Store's plaintext is untouched, and a formal plaintext is gone only if the Store names that archive by name and digest. |
| `RunLogSafety.NoBlindReplay` | crates/akzio-daemon/src/run_log.rs:306-470 | A formal Run is in doubt at a crash; if the doubt still stands at some later serving moment, the Run is from then on known uncertain in memory and in the Store whenever a process serves, and no record or segment of it can be written, whatever is accounted, recovered or crashed afterwards. Accounting may arrive at any moment. |
| `RunLogSafety.OpenLogNeverReplays` | crates/akzio-daemon/src/run_log.rs:306-470 | A log that is torn, unreadable, or leaves a request unanswered, unknown or disowned at a crash has its Run refused at every later moment, whatever the Store accounts for and when. |
| `RunLogSafety.UnprovenNeverReplays` | crates/akzio-daemon/src/run_log.rs:306-322 | An answer without accounting at a crash has its Run refused at every later moment, unless that answer is accounted for by then. |
| `RunLogSafety.BlocksForGood` | crates/akzio-store/src/store/run_log.rs:39-75 | A Run blocked in the Store, and in memory once a process has read it, stays so through every step, crash and restart. |
| `RunLogSafety.DoubtMeans` | crates/akzio-daemon/src/run_log.rs:586-608 | A log leaves something open iff it is torn or unreadable, or holds a request without its answer, an unknown or a disowned call; its Run is in doubt iff it does or some answer in it has no accounting. |
| `RunLogSafety.DoubtIsListed` | crates/akzio-daemon/src/run_log.rs:306-322 | Each such log puts its Run among those in doubt at a crash, for that reason. |
| `RunLogSafety.CompleteMeans` | crates/akzio-daemon/src/run_log.rs:1130-1139 | In a sound archive requests match answers and unknowns one-to-one; it is "complete" iff nothing is unknown or disowned and every claimed attempt ends in a result; a complete formal archive has every answer accounted for. |
| `RunLogSafety.PublishedStays` | crates/akzio-daemon/src/run_log.rs:1170-1176 | No step rewrites or removes a published archive. |
| `RunLogSafety.CrashTaints` | crates/akzio-store/src/store/run_log.rs:39-75 | At a crash, a Run in doubt is either blocked in the Store's journal or still has a doubtful plaintext for recovery to find. |
| `RunLogSafety.UncertainGrows` | crates/akzio-store/src/store/run_log.rs:39-75 | A Run once blocked for an unknown or unreconciled result stays in the uncertain query; an entry adds its own Run iff it blocks. |
| `RunLogSafety.StepKeeps` | crates/akzio-daemon/src/run_log.rs:1218-1266 | One step preserves every archive, journal entry and recorded line, and removes a plaintext only with its proof. |
| `RunLogArchive.ReverifiesExactly` | crates/akzio-daemon/src/run_log.rs:499-555 | Recovery can re-verify a published archive iff the Store's last archive entry for the Run and stage is still the predecessor the archive names. |
| `RunLogArchive.ConfirmedIsStuck` | crates/akzio-daemon/src/run_log.rs:675-700 | A leftover whose archive the Store already names last is stuck: the archive is found as its own predecessor. |
| `RunLogArchive.StuckNotRecoverable` | crates/akzio-daemon/src/run_log.rs:323-326 | No recovery of a stuck leftover can succeed. |
| `RunLogArchive.StuckStays` | crates/akzio-daemon/src/run_log.rs:223-472 | Work on one leftover leaves every other stuck one stuck. |
| `RunLogArchive.UnnameableBreaks` | crates/akzio-daemon/src/run_log.rs:375-392 | A log whose calls to disown lack distinct ids is closed into one its own scan refuses, then and whatever is appended later. |
| `RunLogArchive.AskedTwiceBreaks` | crates/akzio-daemon/src/run_log.rs:375-392 | Any readable log in which two attempts were answered under one call id, with no accounting, is closed that way. |
| `RunLogArchive.DisowningTwiceBreaks` | crates/akzio-daemon/src/run_log.rs:375-392 | Such a log exists: two attempts of one task, four records. |
| `RunLogHistory.StuckHistory` | crates/akzio-daemon/src/run_log.rs:217-472 | A whole history from an empty log directory and Store: start, serve, record one event, seal, have the Store confirm, crash before the plaintext is removed; the leftover is then stuck. |
| `RunLogEffects.MemoryRefinesScan` | crates/akzio-daemon/src/run_log.rs:923-940 | While the log is available, the in-memory count and active attempts of an open segment are those of a scan of its file. |
| `RunLogHistory.CrashAnywhere` | crates/akzio-daemon/src/run_log.rs:217-222 | A crash may cut a history after any step; the prefix and the crash are again a history. |
| `RunLogEffects.ServingDoubtOnRecord` | crates/akzio-daemon/src/run_log.rs:1044-1068 | While serving, a confirmed plaintext in doubt belongs to a Run the Store already lists as uncertain. |
| `RunLogEffects.DoubtGivesReason` | crates/akzio-daemon/src/run_log.rs:435-462 | If recovery finds no reason to block a Run, none of its calls is in doubt. |
| `RunLogEffects.ClosedIsSealable` | crates/akzio-daemon/src/run_log.rs:354-411 | A leftover just closed can be sealed, and can be read again, iff the calls disowned carry distinct ids. |
| `RunLogEffects.RegisteredConfirms` | crates/akzio-daemon/src/run_log.rs:413-434 | After registering, the Store names the very archive on disk iff it had no entry for the segment, or one of that name. |
| `RunLogEffects.MadeZipSound` | crates/akzio-daemon/src/run_log.rs:1044-1068 | An archive built from a sealable segment states its log's identity and integrity truly. |
| `RunLogger.RunLogger.Record` | crates/akzio-daemon/src/run_log.rs:738-811 | Refused without effect for an unavailable log or an uncertain Run. Success appends exactly this record to the Run's open log, opened first if need be under its new name, identity, starting cursor and predecessor; an unknown result after a cancelled call then has the Run in the Store's uncertain query and in memory, and any other kind, or a failure, makes no other Run uncertain. Failure makes the log unavailable. Where I/O works it fails exactly on an identity that does not fit its stage or a lost startup call. |
| `RunLogger.RunLogger.RecordLocked` | crates/akzio-daemon/src/run_log.rs:814-942 | Opens the segment if there is none and appends one record under its identity. |
| `RunLogger.RunLogger.EnsureOpen` | crates/akzio-daemon/src/run_log.rs:822-866 | A new segment starts empty, under a fresh name, with the Store's last archive as predecessor. |
| `RunLogger.RunLogger.AppendRecord` | crates/akzio-daemon/src/run_log.rs:867-942 | One line is appended and counted; a failure may leave nothing, all, or part of it. |
| `RunLogger.RunLogger.Announce` | crates/akzio-daemon/src/run_log.rs:752-795 | The opened entry, then the durable block, then the in-memory block; no Run becomes uncertain but that of an unknown result. Where I/O works only a startup probe's lost call is refused. |
| `RunLogEffects.RecordedBlocks` | crates/akzio-daemon/src/run_log.rs:752-795 | After a written and announced record the uncertain Runs, in the Store and in memory, have grown by its Run if the result is unknown after a cancelled call, and otherwise not at all; a new segment of a formal stage is noted as opened. |
| `RunLogger.RunLogger.SealWithFlow` | crates/akzio-daemon/src/run_log.rs:985-1015 | Seals and forgets the open segment, or makes the log unavailable. |
| `RunLogger.RunLogger.SealSegment` | crates/akzio-daemon/src/run_log.rs:1027-1177 | Success publishes an archive of exactly the plaintext; an unsealable log changes nothing; plaintext, journal and memory are untouched. |
| `RunLogger.RunLogger.CheckSealable` | crates/akzio-daemon/src/run_log.rs:1044-1068 | Accepts iff the scan agrees with the count, nothing is pending and the Store accounts for the answers. |
| `RunLogger.RunLogger.AllAccounted` | crates/akzio-daemon/src/run_log.rs:1049-1068 | Accepts iff every answered call of a formal log that disowns none is accounted for. |
| `RunLogger.RunLogger.Publish` | crates/akzio-daemon/src/run_log.rs:1168-1177 | Verifies, links without replacing, drops the temporary, and returns the receipt of the linked archive. |
| `RunLogger.RunLogger.ConfirmStartup` | crates/akzio-daemon/src/run_log.rs:1179-1189 | Only a startup probe's plaintext is removed on the strength of its archive alone. |
| `RunLogger.RunLogger.ConfirmAfterStore` | crates/akzio-daemon/src/run_log.rs:1193-1216 | Removes a formal plaintext only if the Store has an archive entry with that very name and digest and the archive still has it. |
| `RunLogger.RunLogger.CleanupSource` | crates/akzio-daemon/src/run_log.rs:1218-1266 | Removes one plaintext, and only if its archive is found unchanged. |
| `RunLogger.RunLogger.FlowAfterOf` | crates/akzio-daemon/src/run_log.rs:653-661 | The start of the event window, or an error iff no segment is open. |
| `RunLogArchive.FlowHoldsEvents` | crates/akzio-daemon/src/run_log.rs:70-80 | The window copied for a segment holds, once each in cursor order, exactly the Run's events up to the ceiling that are at or after the segment's own starting cursor, or after 0 for a T0 segment without predecessor. |
| `RunLogger.RunLogger.ArchiveOne` | crates/akzio-daemon/src/orchestration/run_log.rs:83-125 | Without an open segment an error and no effect. Success leaves the segment's lines in a sound published archive that holds exactly the Run's events from the segment's starting cursor to the ceiling and is named by the Store, no plaintext, the segment forgotten and nothing else changed; any other failure leaves the log unavailable. The Run becomes uncertain in the Store exactly if the archive has a call given up or disowned. Where I/O works it succeeds exactly if the segment can be sealed and its window copied. |
| `RunLogger.RunLogger.CollectUnaccounted` | crates/akzio-daemon/src/run_log.rs:307-322 | Collects exactly the answered calls the Store cannot account for. |
| `RunLogger.RunLogger.CloseLog` | crates/akzio-daemon/src/run_log.rs:354-393 | Appends exactly the closing records of an unarchived log. |
| `RunLogger.RunLogger.ObtainArchive` | crates/akzio-daemon/src/run_log.rs:323-412 | Uses the published archive, else the complete temporary one, else closes the log and seals it. Where I/O works it succeeds iff that archive verifies, or the calls can be disowned by name and the event window copied. |
| `RunLogger.RunLogger.CloseAndSeal` | crates/akzio-daemon/src/run_log.rs:354-411 | Closes and seals a log without an archive; where I/O works, iff its calls can be disowned by name and its window copied; else, if they cannot be disowned, the log left on disk is unreadable. |
| `RunLogger.RunLogger.RegisterArchive` | crates/akzio-daemon/src/run_log.rs:413-463 | Adds to the Store exactly the archive entry and, if a call is in doubt, the block, each only if missing; cut short it adds nothing else, and a Run without a reason never becomes uncertain; only then does the process remember the block. |
| `RunLogArchive.RegisteredBlocks` | crates/akzio-daemon/src/run_log.rs:435-462 | A Run with a reason to be blocked is then among the Store's uncertain Runs. |
| `RunLogRecovery.ReasonExactly` | crates/akzio-daemon/src/run_log.rs:435-445 | Recovery has a reason to block a formal Run exactly if its archive has a call given up or disowned or the plaintext found has an answer the Store does not account for; the reason is an unknown result exactly if a call was given up. |
| `RunLogRecovery.DoubtAsFound` | crates/akzio-daemon/src/run_log.rs:306-411 | That is exactly the case in which the plaintext found was in doubt: closing it adds no doubt of its own. |
| `RunLogRecovery.RegisteredGains` | crates/akzio-daemon/src/run_log.rs:413-463 | Registering in full makes exactly the Run with a reason uncertain, and no Run without one. |
| `RunLogArchive.RegistrableExactly` | crates/akzio-daemon/src/run_log.rs:413-434 | An archive cannot be registered only because the Store gives its segment's id to another archive of the Run. |
| `RunLogEffects.VerifiesExactly` | crates/akzio-daemon/src/run_log.rs:499-584 | Verification accepts exactly the archives that sealing this segment with this plaintext could have made, whatever their stage name, cursor and event window. |
| `RunLogProtocol.PreviousExactly` | crates/akzio-daemon/src/run_log.rs:675-700 | A stage's predecessor is what the last archive entry of the Run and stage names; there is none without such an entry or for a startup probe. |
| `RunLogArchive.RecoverableStays` | crates/akzio-daemon/src/run_log.rs:223-472 | Recovering one leftover does not decide whether another, of another Run or of another stage and segment, can be recovered. |
| `RunLogger.RunLogger.RecoverFile` | crates/akzio-daemon/src/run_log.rs:234-472 | A leftover is taken for its own exactly if its first record names its Run, its stage and this Store or none; another Store's log is untouched. Otherwise success means its lines are in an archive that was there, was finished, or is made now with its interruption, cursor and exactly the Run's events; the plaintext is gone; the Store names the archive; and the uncertain Runs, in the Store and in memory, gain this Run exactly if the archive has a call given up or disowned or the plaintext an unaccounted answer. It succeeds only on a recoverable leftover, and on every one where I/O works. A stuck leftover is left as it is; one whose calls cannot be disowned ends stuck. |
| `RunLogger.RunLogger.RecoverAll` | crates/akzio-daemon/src/run_log.rs:223-473 | Every leftover is recovered, in any order, and exactly the Runs with a doubtful leftover become uncertain; where I/O works and no two leftovers meet, exactly if each can be recovered. One stuck leftover makes it fail, and stuck ones stay stuck. |
| `RunLogger.RunLogger.RecordRequired` | crates/akzio-daemon/src/run_log.rs:478-495 | Every Run the Store requires a log of and that has none gets an open T0 log holding exactly its mark; no Run becomes uncertain by it, and where I/O works it fails exactly on an uncertain one. |
| `RunLogger.RunLogger.RecoverOrphans` | crates/akzio-daemon/src/run_log.rs:220-497 | Success: serving, every plaintext of this Store archived in full, every required Run's T0 log open, every Run refused whose doubt at any crash still stands, the Runs refused being exactly those the Store held uncertain before and those with a doubtful leftover, and the number of logs recovered and opened. Failure: not serving, stuck leftovers still stuck, no other Run uncertain. A stuck leftover forces failure; where I/O works and no two leftovers meet, it succeeds exactly if each can be recovered and no required Run is refused. |
| `Checksums.ParseChecksums` | crates/akzio-daemon/src/run_log.rs:1477-1495 | Accepts exactly the lists of well-formed records without a repeated name, and returns each name's hash. |
| `Checksums.RoundTrip` | crates/akzio-daemon/src/run_log.rs:1153-1161 | What is written is read back record for record, and accepted when the names differ. |
| `Checksums.RecordExactly` | crates/akzio-daemon/src/run_log.rs:1477-1495 | A line is a record exactly if it is 64 lower-case hex digits, two spaces and a name that is not empty. |
| `Checksums.EndsAlike` | crates/akzio-daemon/src/run_log.rs:1477-1495 | A line may end in a newline, or in a return and a newline. |
| `Dispatch.AncestorOutputs` | crates/akzio-daemon/src/dispatch.rs:382-426 | Ends for every finite graph, cycles included; succeeds iff everything reached is known, finished and readable; gathers exactly the identities produced; an error names a reached culprit. |
| `Dispatch.ClosedHoldsReached` | crates/akzio-daemon/src/dispatch.rs:391-424 | A set with the roots and closed under dependencies holds everything reached. |
| `Dispatch.TerminalInput` | crates/akzio-daemon/src/dispatch.rs:294-321 | Returns an artifact iff everything reached is settled and it is the only produced one of its kind; everything reached is then succeeded or skipped; once settled, reports "no input" iff none was produced; the two selection errors occur iff settled. |
| `Dispatch.ReachedIgnoresOrder` | crates/akzio-daemon/src/dispatch.rs:391-424 | Reachability ignores the order and repetition of dependencies and roots. |
| `Dispatch.InputIgnoresOrder` | crates/akzio-daemon/src/dispatch.rs:294-321 | On graphs that agree up to that, any two results keeping the terminal input's contract succeed alike, with the same artifact. |
| `Dispatch.IntoValues` | crates/akzio-daemon/src/dispatch.rs:425-426 | The gathered artifacts come out once each, in identity order. |
| `Ordering.CanonicalElements` | crates/akzio-daemon/src/dispatch.rs:309-310 | Sorting and removing adjacent duplicates keeps the elements and leaves no repetition. |
| `ManagedPnl.ManagedRealizedPnl` | crates/akzio-daemon/src/observer_analytics.rs:149-204 | For any opening positions and up to a million fills the saturating loop computes the exact account, errors included. |
| `ManagedPnl.Buy` | crates/akzio-daemon/src/observer_analytics.rs:161-182 | A purchase in saturating 128-bit arithmetic is the purchase in unbounded integers. |
| `PnlAccount.AccountConserves` | crates/akzio-daemon/src/observer_analytics.rs:157-202 | Cash plus change in book value differs from a million times the profit by at most 999,999 per sale, and downward by less than the quantity held after each purchase; positions stay non-negative. |
| `PnlAccount.PnlConserves` | crates/akzio-daemon/src/observer_analytics.rs:149-204 | The same bound for the reported profit of a whole run. |
| `PnlAccount.AverageBetween` | crates/akzio-daemon/src/observer_analytics.rs:170-182 | The new average lies between the old one and the price, and is the price when nothing was held. |
| `PnlAccount.BooksExactly` | crates/akzio-daemon/src/observer_analytics.rs:158-202 | With covered openings the fills are booked iff each is admissible after those before it, and positions are opening plus purchases less sales. |
| `PnlAccount.ReportsExactly` | crates/akzio-daemon/src/observer_analytics.rs:149-204 | A profit is reported iff every fill is admissible and the total fits 64 bits; no average overflow or division failure can occur. |
| `PnlAccount.SellRounds` | crates/akzio-daemon/src/observer_analytics.rs:183-199 | One sale rounds by less than one unit of profit. |
| `PnlAccount.BuyRounds` | crates/akzio-daemon/src/observer_analytics.rs:161-182 | One purchase only rounds down, by less than the quantity held after it. |
| `PnlAccount.WorthUpdate` | crates/akzio-daemon/src/observer_analytics.rs:149-204 | Changing one position changes the book value by that position alone. |
| `Benchmark.ParseBarSeries` | crates/akzio-daemon/src/observer_analytics.rs:206-243 | Accepts exactly nonempty lists of rows that all have a time and a positive close; returns a strictly increasing series in which each bar is that of the first-listed row of its timestamp; the first bad row decides the error. |
| `Benchmark.SeriesUnique` | crates/akzio-daemon/src/observer_analytics.rs:237-238 | Such a series is determined by the bar it has at each instant. |
| `Benchmark.EquitySeries` | crates/akzio-daemon/src/observer_analytics.rs:245-279 | One forward cursor computes the last-bar-at-or-before lookup for ordered inputs, and in any order never uses a later bar. |
| `Benchmark.LookupTotal` | crates/akzio-daemon/src/observer_analytics.rs:262-271 | At every instant either no bar qualifies or exactly one is last. |
| `Benchmark.ScaledExactly` | crates/akzio-daemon/src/observer_analytics.rs:271-279 | The scaled equity is opening equity times close over the first close with its fraction dropped, and absent only if the first close is zero or no 64-bit value is that quotient. |
| `Benchmark.SortStable` | crates/akzio-daemon/src/observer_analytics.rs:237-237 | Sorting by time keeps which bar comes first at each instant. |
| `Benchmark.DedupFirst` | crates/akzio-daemon/src/observer_analytics.rs:238-238 | Removing later bars of a timestamp keeps the first. |
| `Submission.ClassifiesExactly` | crates/akzio-daemon/src/http_launch.rs:16-60 | Through the wire the client reads a rejection only from a rejection that is not a run log failure, and a run only from a submission that returned it. |
| `Submission.ClassifyExactly` | crates/akzio-cli/src/formal_run.rs:228-248 | The client reads success only from a 2xx answer with a run id that is not blank, a rejection from exactly the statuses that are neither 2xx nor 5xx, and everything else is ambiguous. |
| `Submission.RejectedMeansNothing` | crates/akzio-cli/src/formal_run.rs:214-248 | A client told "rejected" committed nothing, before or ever after, whatever was lost, died or shut down. |
| `Submission.SubmittedMeansCommitted` | crates/akzio-cli/src/formal_run.rs:236-248 | A returned run id names a run in the Store, then and ever after. |
| `Submission.OneStartOneCommit` | crates/akzio-cli/src/formal_run.rs:217-226 | One start commits at most one run. |
| `Submission.DrainedIsQuiet` | crates/akzio-daemon/src/http.rs:185-197 | Once submissions are closed and waited for, no submission commits anything more. |
| `Submission.StepKeepsInvariant` | crates/akzio-daemon/src/launch.rs:28-179 | Every step keeps what a submission's place says about its commits and what the wire and client may hold. |
| `Submission.RunKeepsInvariant` | crates/akzio-daemon/src/launch.rs:28-179 | The invariant holds along every interleaving. |
| `Submission.AmbiguityIsReal` | crates/akzio-cli/src/formal_run.rs:216-235 | The third answer is needed: the same silence follows a request that never arrived and a committed run. |
| `SubmissionCore.Core.SubmitFormalRun` | crates/akzio-daemon/src/launch.rs:28-49 | A closed tracker rejects as unavailable and commits nothing; an open one gives exactly the task's result and commits what it commits. |
| `SubmissionCore.Core.LaunchFormalRun` | crates/akzio-daemon/src/launch.rs:60-179 | From what the environment answers and the purpose alone: each check that fails gives a rejection with its own error, in the code's order; a plan committed or a new reservation is submitted if it could be announced and otherwise unknown with its id; a reused reservation is submitted; a failing commit or an unknown submission is unknown, with the id iff it was reported. Exactly what landed is in the Store. |
| `SubmissionCore.Core.CheckBeforeCommit` | crates/akzio-daemon/src/launch.rs:65-77 | Refuses exactly for an unready log, a non-canonical or failing Store, a foreign purpose or an unconfigured Paper, and commits nothing. |
| `SubmissionCore.Core.CommitPlan` | crates/akzio-daemon/src/launch.rs:79-116 | Before the commit every failure is a rejection; after it, unknown. |
| `SubmissionCore.Core.TickPaper` | crates/akzio-daemon/src/launch.rs:117-150 | A reservation commits or reuses a run; only an unknown submission may have committed on failure. |
| `SubmissionCore.Core.CloseFormalSubmissions` | crates/akzio-daemon/src/launch.rs:51-58 | Closing refuses new submissions and changes nothing else. |
| `SubmissionCore.HandleRun` | crates/akzio-daemon/src/http_launch.rs:30-60 | A refused caller commits nothing and is answered 4xx; an admitted one is answered with exactly the mapping of its result. |
| `SubmissionCore.ToldOverTheWire` | crates/akzio-daemon/src/http_launch.rs:16-60 | A result read back over the wire: a run not blank is that run, a rejection is a rejection with 404 for a missing run or task and 409 otherwise, but for a run log failure, which is ambiguous like everything unknown. |
| `SubmissionCore.Start` | crates/akzio-cli/src/formal_run.rs:214-248 | End to end: one POST, at most one commit. With a ready Core, a request that arrives and an answer that arrives, the client is told exactly what follows from the environment's answers: a run id, a rejection with status 404 or 409, or ambiguity. A rejection or an unready Core leaves the Store as it was; a run id names a run in the Store. |
| `DecisionEvidence.VerifiedRefinesLegacy` | crates/akzio-domain/src/decision.rs:1224-1333 | Where the current validator accepts, the legacy one accepts iff no verified claim carries a gap blocking a directional forecast. |
| `DecisionEvidence.LegacyExactly` | crates/akzio-domain/src/decision.rs:1224-1256 | The legacy validator accepts iff each directional forecast has, among its verified claims, a price ground, a macro ground and no blocking gap. |
| `DecisionEvidence.SufficiencyExactly` | crates/akzio-domain/src/decision.rs:1056-1127 | The evidence check accepts iff every directional forecast is covered and unblocked; the incomplete-evidence warning never changes the answer. |
| `DecisionEvidence.SufficiencyDemands` | crates/akzio-domain/src/decision.rs:1056-1127 | Spelled out: each directional forecast needs directional price and macro grounds on its asset from claims for its horizon, and no claim may have a blocking gap on its asset, or on none in particular, at its horizon, which for a gap that names none is that of its own claim. |
| `DecisionEvidence.VerifiedIsMonotone` | crates/akzio-domain/src/decision.rs:1263-1333 | More claims, critiques or citations never turn acceptance into rejection. |
| `DecisionEvidence.CarrierIsVerified` | crates/akzio-domain/src/decision.rs:1263-1309 | A claim that carries a forecast is cited, valid, directed and verified, has both grounds itself and no gap that blocks the forecast. |
| `DecisionAcceptance.AcceptedSlotwise` | crates/akzio-domain/src/decision.rs:1311-1333 | A draft is accepted iff each directional forecast alone is. |
| `DecisionAcceptance.AcceptedByOneClaim` | crates/akzio-domain/src/decision.rs:1311-1333 | Where the current validator accepts, each directional forecast has some single claim with which alone the legacy validator accepts it. |
| `DecisionAcceptance.OneClaimIsEnough` | crates/akzio-domain/src/decision.rs:1263-1333 | One cited, valid claim that points the forecast's way without a blocking gap, and one valid supporting critique of it that reviewed and verified its price and macro grounds as current and rated, make the current validator accept the forecast. |
| `DecisionAcceptance.UncitedInvalidOrNeutral` | crates/akzio-domain/src/decision.rs:1263-1319 | A claim that is not cited, not valid or neutral can be taken away without changing the answer. |
| `DecisionAcceptance.MisdirectedClaim` | crates/akzio-domain/src/decision.rs:1269-1323 | So can a claim for a horizon or with a stance that no directional forecast has. |
| `DecisionAcceptance.GappedClaim` | crates/akzio-domain/src/decision.rs:1272-1283 | So can a claim with a blocking gap at every forecast of its horizon. |
| `DecisionAcceptance.UngroundedClaim` | crates/akzio-domain/src/decision.rs:1291-1300 | So can a claim without a directional price or macro ground on the forecasts' assets. |
| `DecisionAcceptance.InvalidOrUnsupportive` | crates/akzio-domain/src/decision.rs:1286-1289 | So can a critique that is not valid or does not support its claim. |
| `DecisionAcceptance.BlockingCritique` | crates/akzio-domain/src/decision.rs:1290-1290 | So can a critique that blocks every forecast its claim is for. |
| `DecisionAcceptance.WeakVerification` | crates/akzio-domain/src/decision.rs:1302-1307 | So can a verification that is stale, of unknown time or unrated. |
| `DecisionAcceptance.ForeignReview` | crates/akzio-domain/src/decision.rs:1296-1301 | So can a reviewed ground that agrees with no ground of the claim in evidence, role, domain and asset. |
| `DecisionAcceptance.LegacySatisfied` | crates/akzio-domain/src/decision.rs:1224-1256 | A claim of the right horizon and stance with both grounds and no blocking gap, and a supporting critique that does not block, make the legacy validator accept the forecast. |
| `DecisionAcceptance.LegacyIgnores` | crates/akzio-domain/src/decision.rs:1232-1249 | The legacy validator ignores a claim of another horizon or stance, or without a supporting critique of its own. |
| `DecisionEvidence.LegacyJoinsClaims` | crates/akzio-domain/src/decision.rs:1232-1253 | A witness: the legacy validator joins a price claim and a macro claim where the current one refuses. |
| `DecisionEvidence.LegacyStopsAtGaps` | crates/akzio-domain/src/decision.rs:1110-1124 | A witness: one verified claim with a blocking gap makes the legacy validator refuse what the current one accepts. |
| `DecisionGrid.ValidateForecasts` | crates/akzio-domain/src/decision.rs:1190-1220 | A list is accepted iff every forecast is valid and the slots are a permutation of the twelve pairs; other errors come from the first bad forecast. |
| `DecisionGrid.PermutationExactly` | crates/akzio-domain/src/decision.rs:1199-1218 | A list of slots is a permutation of the grid iff nothing repeats and nothing is missing. |
| `DecisionGrid.ValidatePlan` | crates/akzio-domain/src/decision.rs:800-832 | A plan is accepted iff it has four valid rows on distinct assets and the weights with cash make one million; the overflow branch is never taken. |
| `DecisionGrid.GrossIsTotal` | crates/akzio-domain/src/decision.rs:835-840 | For distinct assets, adding the rows is adding the assets' weights. |
| `Capacity.NotionalNeverOverflows` | crates/akzio-domain/src/market_safety.rs:378-385 | No checked product overflows for any 64-bit amount, 32-bit weight and 32-bit count. |
| `Capacity.AggregateOrder` | crates/akzio-domain/src/market_safety.rs:377-385 | The checked chain is the exact quotient, or absent iff it leaves 64 bits. |
| `Capacity.AssessOrder` | crates/akzio-domain/src/market_safety.rs:392-407 | The saturating row is the exact capped row. |
| `Capacity.AssessCapacity` | crates/akzio-domain/src/market_safety.rs:355-427 | Assessed iff inputs are valid and every weighted asset assessable; one exact row per such asset, in the order of the universe; within capacity iff every row is and there is one. |
| `Capacity.CapacityIsMonotone` | crates/akzio-domain/src/market_safety.rs:355-427 | A smaller account, fewer agents or larger volumes keep the assessment and the verdict. |
| `Capacity.ShareExactly` | crates/akzio-domain/src/market_safety.rs:392-404 | The participation test holds iff the order is strictly below the allowed share plus one part of the volume. |
| `Capacity.SlippageExactly` | crates/akzio-domain/src/market_safety.rs:396-402 | The slippage test holds iff the share times the impact slope is strictly below the allowed slippage plus one part in a million. |
| `Capacity.RowMeans` | crates/akzio-domain/src/market_safety.rs:392-421 | A row's fill probability and participation make one million, or the former is zero; the row is within iff both bounds hold. |
| `Capacity.WithinMeansShare` | crates/akzio-domain/src/market_safety.rs:402-421 | Within capacity implies both bounds for every weighted asset. |
| `Dependencies.Incidents` | crates/akzio-domain/src/market_safety.rs:814-859 | One incident per failing dependency in key order; for a valid closure exactly those that do not permit new risk. |
| `Dependencies.NoIncidentExactly` | crates/akzio-domain/src/market_safety.rs:779-806 | No incident iff the closure permits new risk, which implies it permits risk reduction; risk reduction iff none of its five kinds is listed. |
| `Dependencies.QuietExactly` | crates/akzio-domain/src/market_safety.rs:728-748 | The incident loop skips a well-formed snapshot iff it permits new risk. |
| `Dependencies.ReductionExactly` | crates/akzio-domain/src/market_safety.rs:779-806 | Risk may be reduced iff every dependency that may not be switched off, the model provider aside, permits new risk. |
| `Dependencies.FreshExactly` | crates/akzio-domain/src/market_safety.rs:728-748 | A healthy snapshot permits new risk iff it is well formed and unswitched and its age, either way round, is less than one second above the expected freshness. |
| `Dependencies.ClassesExactly` | crates/akzio-domain/src/market_safety.rs:814-859 | The class reported for a kind says whether it may be switched off and whether reducing risk needs it. |
| `EventStream.SplitBlindExactly` | crates/akzio-cli/src/http_client.rs:208-236 | For either ending of the stream, reading is independent of chunk boundaries iff every complete line is valid UTF-8 or no event ends before the first that is not. |
| `EventStream.ValidIsSplitBlind` | crates/akzio-cli/src/http_client.rs:208-236 | With valid lines any two ways of cutting the stream print the same events and end alike. |
| `EventStream.LinesConserve` | crates/akzio-cli/src/http_client.rs:241-254 | Lines followed by the rest are the stream, and the rest holds no newline. |
| `EventStream.LinesAppend` | crates/akzio-cli/src/http_client.rs:241-254 | Cutting anywhere and carrying the rest over gives the same lines and rest. |
| `EventStream.BrokenPrints` | crates/akzio-cli/src/http_client.rs:241-254 | With a bad line, any cutting fails after printing a start of the events before it. |
| `EventStream.CutShowsMore` | crates/akzio-cli/src/http_client.rs:241-254 | Cutting right before the bad line prints all of them, where one chunk prints none. |
| `EventStream.ReadsBroken` | crates/akzio-cli/src/http_client.rs:223-236 | Reading breaks in the chunk that completes the bad line. |
| `EventStream.Connection.SseLines` | crates/akzio-cli/src/http_client.rs:241-254 | Appends and drains: what is returned and what stays are what was there, with no complete line left. |
| `EventStream.Connection.PrintSseData` | crates/akzio-cli/src/http_client.rs:267-273 | Prints the joined data once and clears it; prints nothing for an empty event. |
| `EventStream.Connection.Events` | crates/akzio-cli/src/http_client.rs:208-236 | Reading a whole response gives the result of the plain reader: leftover data is printed at the end of the stream, and a chunk that fails in transport ends reading with what was printed before. |
| `EventRoundTrip.ReadsWhatWasSent` | crates/akzio-cli/src/http_client.rs:208-273 | Whatever messages a server sends, with ids, names and comments, ending lines either way, and however the bytes are cut into chunks, a client that reads to the end prints the data of each message that has any, whole, once and in order. |
| `EventRoundTrip.JoinExactly` | crates/akzio-cli/src/http_client.rs:267-273 | What is printed for an event splits back into exactly its data lines. |
| `ResearchReview.StagnatesExactly` | crates/akzio-domain/src/research_review.rs:286-319 | Stagnation holds iff both reviews are contract-valid rejections of the same scopes for the same issues on the same evidence over the same content, all as sets. |
| `ResearchReview.StagnationIsOrderBlind` | crates/akzio-domain/src/research_review.rs:286-319 | Reordering assessments or issues, reordering or repeating evidence, or rewording without blanking never changes the answer. |
| `ResearchReview.StagnationIsEquivalence` | crates/akzio-domain/src/research_review.rs:286-319 | A corollary of comparing one fingerprint: on contract-valid rejections stagnation is reflexive, symmetric and transitive. |
| `ResearchReview.OrdersAreImmaterial` | crates/akzio-domain/src/research_review.rs:306-315 | The answer does not depend on which total orders the sorts use. |
| `ResearchReview.ProposalRevisionStagnated` | crates/akzio-domain/src/research_review.rs:286-319 | The check computes that answer. |
| `ResearchReview.ValidateForContract` | crates/akzio-domain/src/research_review.rs:150-185 | Completeness always; the structure of issues from version 69 on. |
| `ResearchReview.CheckIssues` | crates/akzio-domain/src/research_review.rs:156-182 | At most three issues, some iff rejected, each fitting its scope, none twice. |
| `ResearchReview.IssueSpelledOut` | crates/akzio-domain/src/research_review.rs:156-182 | An issue fits iff its path is its scope or below it or below the scope's numeric basis, its criterion is not blank, and it cites only claims, critiques, evidence or details. |
| `ResearchReview.StructuredExactly` | crates/akzio-domain/src/research_review.rs:156-182 | Issues are well formed iff there are at most three, some iff the scope is rejected, all fit, and any two differ in category or path. |
| `ResearchReview.Validate` | crates/akzio-domain/src/research_review.rs:189-208 | Every scope exactly once with a reason, bound to a proposal and a manifest. |
| `ResearchReview.IssuesExactly` | crates/akzio-domain/src/research_review.rs:307-310 | For distinct identities the sorted prints compare issues as sets. |
| `ResearchReview.RewrittenValid` | crates/akzio-domain/src/research_review.rs:150-208 | A rewritten review passes the contract check and acceptance as the original does. |
| `Ordering.CanonicalExactly` | crates/akzio-domain/src/research_review.rs:308-311 | Two collections have one canonical form iff they hold the same elements. |
| `Ordering.SortExactly` | crates/akzio-domain/src/research_review.rs:310-315 | Two collections sort alike iff they are permutations of each other. |

## Left out

- File permissions, symbolic links, inode checks, directory syncs and the ZIP byte format; a torn
  last record is one flag on a file, and a log with it is unreadable.
- The derived archive entries (`llm_calls.jsonl`, `summary.md`) and manifest fields that carry no
  identity or integrity; time stamps, retry indexes, payloads and error texts.
- Credential redaction before a record is written.
- Lock poisoning, in the logger and in the submission tracker.
- The character checks on run ids and the parsing of startup session ids: a run id is formal or a
  startup session by construction.
- A logger with no Store attached, and the test-only seal without Store accounting.
- RunLogger.RunLogger.Record: does not model concurrent callers interleaving inside one call,
  because the code holds one lock throughout.
- RunLogger.RunLogger.RecoverOrphans: leaves the order of the files free, as the directory listing
  does, and the names and dates of new segments to its caller, as a clock and a generator would.
- Which calls of one process see working I/O: `RunLogger.RunLogger.RecoverFile` is exact only for a
  logger whose every call works, and otherwise states what each outcome means.
- ManagedPnl.ManagedRealizedPnl: beyond a million fills only the absence of a claim is stated; the
  source accepts fewer than 100. The 64-bit difference of price and average wraps, as in a release
  build; with covered openings it never does.
- Parsing of fill, position and bar payloads down to their fields, and the floating-point
  analytics (volatility, beta, drawdown, Sharpe, compounding).
- The scheduler's tick, the Store's transactions and the workers' bodies.
- The Core's own start-up by the client (`crates/akzio-cli/src/formal_run.rs:150-190`), beyond its
  ready check.
- SubmissionCore.Start: follows one submission without interleaving; the interleavings are those of `Submission`.
- `validate_structured_allocation_eligibility` and `research_coverage_is_complete` in
  `crates/akzio-domain/src/decision.rs`, which reuse the predicates modelled here.
- Dependencies.Incidents: the wording of an incident's reason is its kind only.
- ResearchReview.StagnatesExactly: a scope's typed content is an opaque text, as serialized.
