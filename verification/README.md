# Verification models for the kirocrew demo

Dafny models of the parts of the repository that decide something: which routes cover an address
range, whether an operator's approval may be sent, what a security log contained, whether a
configuration entry may be retired, what a media file is. Each model follows the source's branches
and constants, and is proved against a reference that does not repeat the algorithm: a lookup at a
single address, a chain of evidence, an append-only log, a layout of a file, a path in a graph.

`dafny verify dfyconfig.toml` checks the whole project.

## What is proved, by area

* **Routes** (`Ipv4`, `RouteSweep`, `Preflight`, `Sorting`). The interval sweep labels every address
  of the requested block, not only the low end of each gap, with its longest-prefix route (section
  5.1 of RFC 4632). The coverage warnings and gateway checks say what per-address lookups would say.
* **Approvals** (`NativeRecords`, `NativeSettings`, `ApprovalProtocol`, `ApprovalSafety`,
  `ApprovalTheorems`, `ApprovalOrigins`, `ApprovalIdentifiers`, `ApprovalProgress`, `Evidence`,
  `EvidenceRecords`, `EvidenceSample`, `RawCalls`, `NativeRun`, `NativeExample`, `SampleSanitizer`).
  The runner and any number of operator commands share two files. A run is any sequence of single
  file and network effects, with arbitrary frames, stalled operators, stray decision files,
  tampering with the pending card, and an exception at any step. What is kept and shown of a frame
  is what `Sanitizer.Clean` makes of it, with the request identifiers known by then, and whether an
  input is hidden is computed from the raw input. `evaluate` is proved equivalent to a one-to-one
  chain of evidence, the two are joined end to end, and the cleaned identifiers of that chain are
  traced back to the frames as they arrived. Turns complete from any point between turns, so a
  fitting plan finishes a whole run; an approved and a denied run meet what the end-to-end
  statements ask for.
* **Security log** (`SelInterval`, `LogScan`). The anchored page and the raw byte scan each return
  exactly the interval they are meant to.
* **Configuration** (`HookRetirement`, `RetirementProtocol`, `RetirementPlans`, `DesktopCutover`).
  The retirement is a compare and swap beside other lock-holding writers and crashes; the desktop
  cutover and its rollback are inverse up to a stated difference.
* **Files** (`Bytes`, `Mp4Boxes`, `JpegMarkers`, `JpegWritten`). A box walk and two marker walkers
  against declarative layouts; a file has a box layout exactly when it can be written box by box.
  The tolerant walker finds dimensions exactly in files written as markers, segments and a frame header.
* **Smaller cores** (`ProcessWalk`, `Sanitizer`, `SanitizerLaw`, `SpelledText`, `NodeSpans`, `Turns`,
  `ControlMap`).

## Where the code falls short of a plausible reading

These are theorems, with the exact condition where there is one.

* `LogScan.ReportAddsUpIff`: the exported window count is the exported rows plus the flattened counters
  exactly when no two counted rows have different `(event_type, outcome)` pairs that read the same once
  joined by a colon; `LogScan.FlattenCanLoseCounts` is a collision.
* `RetirementProtocol.RerunCompletesIff`: a rerun gets past an existing backup exactly when that file
  is not half written. A crash between creating and writing the backup is for good: whatever anybody
  does afterwards, no attempt at that very file gets to the swap
  (`RetirementProtocol.CrashDuringBackupIsForGood`).
* `EvidenceSample.AlwaysNamedIff`: passing evidence names the service's invocation exactly when that
  identifier is truthy or the empty text (or cannot be hashed, and then no row passes). Any other one,
  such as zero (`EvidenceSample.ZeroInvocationPasses`), is compared as the empty string.
* `RawCalls.OneRawCallIff`: the checks compare cleaned identifiers. A turn that shows one cleaned call
  always showed a single call exactly when that identifier is unambiguous: no two different ones are
  ever shown as it. `RawCalls.CardNamesCallIff` says the same of a card, its meta direct or nested as
  text, and `NativeRun.EvidencedCallIsOneRawCall` and `NativeRun.ApprovedCallIsRawCall` of whole runs.
  `SampleSanitizer.TwoRawCallsHappen` is a run that passes with two calls, under settings that meet
  every assumption of these theorems.
* `DesktopCutover.RoundTripIsOriginalIff`: rollback after cutover is the original with the local
  Gateway on exactly when the original had a hosts object without this port. A missing hosts object
  comes back empty.
* `JpegMarkers.WalkersAgreeIff`: when the strict walker succeeds, the tolerant one agrees exactly when
  every segment passed has length at least 2; `JpegMarkers.TolerantSeesMore` shows that the converse
  direction fails.
* `NodeSpans.ReplacementsCommuteIff`: two disjoint nodes may be replaced in either order exactly when the
  earlier one's body does not mention the later one's identifier, or both that mention and the later
  node already are an opening tag, a title, the later one's body and a closing tag.
  `NodeSpans.OrderCanMatter` is a case where the order shows.
* The runner's identifier difference gives up on the size of the whole log, the anchored interval only
  on what was appended (`SelInterval.IntervalIsExact`, with the helper `RunnerSucceedsIff`).

## Modelling choices

* SHA-256 is an injective constructor. External replies, frames, table rows and file bytes are
  arbitrary values. Times are integers.
* JSON values keep the insertion order of object fields where the source does. Values that are only
  compared or hashed (cards, log records, the configuration being retired) stand for their canonical
  form, fields in sorted order, as the source's sorted dumps and Python's equality have it.
* The JSON text library, `str`, the decoder of a log row and the sanitizer's regular expressions are
  function parameters. Of the parser it is assumed that a value is never larger than the text it came
  from and that no object repeats a key; `CleanIgnoresSensitiveContent` also supposes a spelling without
  sorted keys that parses back, and `SpelledText` shows that such a library can exist.
* `RawCalls.KeepsFrames` is what the regular expressions leave alone: the field names `tool_call_id`,
  `meta`, `cls` and `role`, the word `tool`, and whether text is empty. A secret that is itself part of
  one of those words would break it. `RawCalls.KeepsTrace` says the same of the fields `input_preview` and
  `trace_id` and of the trace. Of the JSON library the statements about cards also suppose that
  an object written with sorted keys reads back with the same plain fields.
* The identifiers that the sanitizer learns during a run are part of the protocol's state; its secrets
  are fixed before the first turn.
* A Python exception is an `Err`, a `None` or a failed verdict, never a precondition.
* `Runner.phase` and `retire_hook` are state machines, because the promise is about interleavings;
  loops that fill sets, lists and positions are methods with loops.

## Model

| member | source | states |
|---|---|---|
| Ipv4.ContainsIsInterval | scripts/deploy-demo.py:134-143 | membership by masking host bits is the interval from network to broadcast address |
| Ipv4.NestedOrDisjoint | scripts/deploy-demo.py:141-145 | two blocks sharing an address are nested, the longer prefix inside |
| Ipv4.StopInSpace | scripts/deploy-demo.py:129 | a valid block ends inside the 32-bit address space |
| Ipv4.SizeIsExact | scripts/deploy-demo.py:129 | a block with a prefix of p bits holds a 2^p-th part of the 2^32 addresses |
| Ipv4.ContainsIsPrefix | scripts/deploy-demo.py:143 | an address lies in a block exactly when their first prefix bits are the same |
| Ipv4.ValidIff | scripts/deploy-demo.py:128 | a block is accepted exactly with at most 32 prefix bits and zeros after them |
| RouteSweep.EffectiveIsUnique | scripts/deploy-demo.py:143-144 | an address has at most one longest-prefix route, ties going to the earliest row |
| RouteSweep.LongestMatch | scripts/deploy-demo.py:143-144 | scanning a table yields a longest match exactly when something matches |
| RouteSweep.LongestMatchIsInnermost | scripts/deploy-demo.py:141-145 | the chosen route's network lies in every other matching network |
| RouteSweep.EffectiveConstant | scripts/deploy-demo.py:137-144 | between neighbouring cuts one lookup answers for every address |
| RouteSweep.Lookup | scripts/deploy-demo.py:142-144 | the first longest candidate is the longest match over the full table |
| RouteSweep.ClipRoutes | scripts/deploy-demo.py:128-138 | candidates are the routes meeting the block, cuts are closed under their clipped ends, at most 2n+2 of them |
| RouteSweep.LabelGaps | scripts/deploy-demo.py:139-145 | the gaps tile the block and each is labelled correctly throughout |
| RouteSweep.TilesPartition | scripts/deploy-demo.py:139-146 | a tiling holds each address of the block once and no other address |
| RouteSweep.RouteSegments | scripts/deploy-demo.py:126-146 | segments are nonempty, contiguous and hold exactly the addresses that begin with the block's prefix, 2^32 / 2^prefix of them; every address carries its longest-prefix route, at most 2n+1 segments; refuses exactly malformed blocks |
| RouteSweep.MatchesIsPrefix | scripts/deploy-demo.py:143 | a route matches an address exactly when the address begins with its prefix |
| Sorting.SortedSet | scripts/deploy-demo.py:140 | strictly ascending, same members, same size |
| Preflight.EffectiveTableGoverns | scripts/deploy-demo.py:106-116 | a table is chosen exactly when one alone names the subnet, or none does and one alone is main |
| Preflight.FirstFieldIsFirst | scripts/deploy-demo.py:119-123 | the target is the first set attribute in key order, none exactly when all are empty |
| Preflight.SegmentsSeeAddresses | scripts/deploy-demo.py:224-232 | a property holds of some segment's route exactly when it holds of the route at some address |
| Preflight.ReviewSegments | scripts/deploy-demo.py:224-232 | the loop's warnings and targets are those of its segments, in the source's branch order |
| Preflight.ReportedExactly | scripts/deploy-demo.py:224-227 | an address lies in a missing-or-inactive range exactly when its own route is missing or inactive |
| Preflight.ContributionsExact | scripts/deploy-demo.py:224-231 | all three kinds of warning about a destination agree with per-address lookups |
| Preflight.TargetsExact | scripts/deploy-demo.py:232 | the targets checked are those active routes reach at some address |
| Preflight.Deduplicate | scripts/deploy-demo.py:251 | same warnings, each once, in the order of first occurrences |
| Preflight.ReviewRoutes | scripts/deploy-demo.py:215-251 | the report says of every destination exactly what its addresses' own routes justify, looks at plain HTTP only when it is allowed, keeps destinations and ranges in order without repeats, and fails exactly on an ambiguous table or a malformed block |
| Preflight.RouteTargetIs | scripts/deploy-demo.py:119-123 | a route's target is the first of the ten attributes that is set |
| ApprovalSafety.EveryRunIsSafe | scripts/native-backend-demo.py:377-469 | every interleaving keeps the turn's shape, the faithful card, the ledger of POSTs, the files, the provenance of decisions and the cleaned record of every frame |
| ApprovalSafety.StepIsSafe | scripts/native-backend-demo.py:377-469 | each single action of the runner, an operator or the environment keeps all of it |
| ApprovalSafety.LedgerGrows | scripts/native-backend-demo.py:387-444 | one more POST for a phase without one keeps at most one POST and one approval per phase, each behind the other |
| ApprovalSafety.AdvanceKeepsAuthors | scripts/native-backend-demo.py:250-267 | an operator command only ever records a decision about the card it read and checked |
| ApprovalTheorems.ApprovalsAreExact | scripts/native-backend-demo.py:390-400 | every approved POST is of a non-crew phase, for a card equal to the one on disk and named by request and digest, showing the cleaned frame; the raw tool input was exactly the trace and cleaning would have touched none of it |
| ApprovalTheorems.EveryPostAnswers | scripts/native-backend-demo.py:392-400 | every POST carries out a reviewed decision that names the card in memory and on disk, or is the rejection of a crew card |
| ApprovalTheorems.AtMostOnePostPerPhase | scripts/native-backend-demo.py:439-444 | no phase is answered twice in any run |
| ApprovalTheorems.DecisionsAreNotReplayed | scripts/native-backend-demo.py:393-396 | decisions behind two POSTs name different digests, so a leftover file never answers a later phase |
| ApprovalTheorems.DecisionsWereReviewed | scripts/native-backend-demo.py:250-269 | without stray decision files, behind every decision that is POSTed stands an operator command that read that very card, was given its request and digest, and decided what was sent |
| ApprovalTheorems.PendingFileFollowsCard | scripts/native-backend-demo.py:387-466 | at every loop head the file exists exactly while a card is pending; an ended turn leaves none |
| ApprovalTheorems.CompletedPhases | scripts/native-backend-demo.py:401-465 | a completed phase has at most one approval, POSTed as approved and exact |
| ApprovalOrigins.EveryRunHasOrigins | scripts/native-backend-demo.py:415-455 | in every run each kept frame is of the runner's slot and the first opens its turn; each card shows such a permission frame, the turn's tool and the latest tool call the frame refers to; each POST answers such a frame of its phase |
| ApprovalOrigins.OtherSlotIsIgnored | scripts/native-backend-demo.py:415-416 | a frame of another slot only ends the wait for it |
| ApprovalOrigins.OwnFrameIsKeptIff | scripts/native-backend-demo.py:415-429 | a frame of the runner's slot is kept, cleaned, exactly when the turn has begun or the frame opens it |
| ApprovalOrigins.DeliveryIs | scripts/native-backend-demo.py:430-464 | the frame's own fields and what the turn has had decide whether a card opens, a crew card is rejected, the turn ends, or the run fails |
| ApprovalOrigins.DecisionIsTakenIff | scripts/native-backend-demo.py:388-398 | a decision is taken up exactly when it fits the card in memory and that card is still the one on disk; otherwise the run fails with nothing POSTed |
| ApprovalOrigins.DecisionIsSent | scripts/native-backend-demo.py:399-401 | a decision taken up is POSTed once and recorded beside its card |
| ApprovalOrigins.DecisionIsArchived | scripts/native-backend-demo.py:402-407 | afterwards both files are gone and the turn goes on only after an approval; a file missing by then fails the run |
| ApprovalOrigins.DecisionFileIsExclusive | scripts/native-backend-demo.py:269 | an operator creates a decision file only where there is none and fills only its own |
| ApprovalOrigins.CommandIs | scripts/native-backend-demo.py:250-269 | a command goes on exactly with the card it was given by request and digest, never a crew card, approving only what was shown exactly, and only into a free place |
| ApprovalOrigins.CardIsWritten | scripts/native-backend-demo.py:455 | the card goes into the file the runner created and over no other |
| ApprovalOrigins.OutsideIs | scripts/native-backend-demo.py:408-411 | silence only ends the wait for a frame; an exception fails a run that is not over |
| NativeRecords.PermissionMetaIs | scripts/native-backend-demo.py:215-222 | meta is the object given directly, failing that the object nested in nonempty text, failing that nothing |
| ApprovalIdentifiers.EveryRunKnows | scripts/native-backend-demo.py:424-429 | every frame is cleaned with exactly the request identifiers that the permission frames kept by then have named |
| ApprovalProgress.HonestTurnCompletes | scripts/native-backend-demo.py:377-469 | from any point between turns, an exact card approved by one operator is POSTed and archived, and the turn files exactly the frames it kept |
| ApprovalProgress.QuietTurnCompletes | scripts/native-backend-demo.py:377-469 | from any point between turns, a turn without a card completes with nothing approved and nothing POSTed |
| ApprovalProgress.PlanFinishes | scripts/native-backend-demo.py:359-360 | one fitting turn for each phase left finishes the run, with all rows filed, exactly the honest cards POSTed and no file left |
| NativeExample.ApprovedRunPasses | scripts/native-backend-demo.py:488-573 | with any library and sanitizer that leave the sample's words alone, some approved run passes |
| NativeExample.TwoRawCallsPass | scripts/native-backend-demo.py:506-527 | under any such settings that show two identifiers as one, some run passes although its turn shows both calls |
| NativeExample.DeniedRunPasses | scripts/native-backend-demo.py:528-530 | likewise some denied crew run passes |
| SampleSanitizer.TwoRawCallsHappen | scripts/native-backend-demo.py:506-527 | settings that meet every assumption made of cleaning exist, with a run that passes although two calls arrived |
| Evidence.CollectIds | scripts/native-backend-demo.py:506-526 | the two loops gather exactly the call, trace-bearing and blocked identifiers |
| Evidence.OneExactCallIsSole | scripts/native-backend-demo.py:527 | equal singletons mean one tool call, which carried exactly the trace |
| Evidence.CrewChecksAreChain | scripts/native-backend-demo.py:528-530 | the crew checks pass exactly when the only call was blocked, unapproved and unseen by the service |
| Evidence.ChecksGiveChain | scripts/native-backend-demo.py:533-560 | passing identity checks and a matching result form the one-to-one chain |
| Evidence.ChainGivesChecks | scripts/native-backend-demo.py:533-550 | every chain passes the identity checks |
| Evidence.EvaluateRow | scripts/native-backend-demo.py:496-563 | a row passes exactly when the frames its branch reads are readable and its chain exists |
| Evidence.BackendSeenIff | scripts/native-backend-demo.py:568-570 | `any` finds the backend exactly when some process is one and nothing before it raises |
| Evidence.Evaluate | scripts/native-backend-demo.py:488-573 | computes the verdict of the whole run |
| EvidenceRecords.OutcomeIff | scripts/native-backend-demo.py:517-550 | phase by phase, which journal records of the trace there are and are not: one decision, no AWS record for mcp, one dispatch and one result with these fields for allow and iam |
| EvidenceRecords.ResultIff | scripts/native-backend-demo.py:552-560 | a result of the call holds a payload with the phase's own layer, error and verdict |
| EvidenceRecords.DenialIff | scripts/native-backend-demo.py:529-530 | the log has exactly one entry that denies a tool by hook and names a request |
| EvidenceRecords.PassesIff | scripts/native-backend-demo.py:496-563 | a row passes exactly when nothing in it raises and its frames, approval, log entries, journal records and result are these |
| EvidenceRecords.RunPassesIff | scripts/native-backend-demo.py:488-573 | a run passes exactly when the service never restarted, its journal is complete, the security log verifies, a backend was seen at work and every row's records hold |
| EvidenceSample.AlwaysNamedIff | scripts/native-backend-demo.py:553-556 | passing rows always name an invocation exactly when it is truthy, empty text or unhashable |
| EvidenceSample.ZeroInvocationPasses | scripts/native-backend-demo.py:553-556 | a row passes with an invocation of zero that its result does not name |
| RawCalls.OneRawCallIff | scripts/native-backend-demo.py:506-527 | turns that show this one cleaned call always showed one call as it arrived exactly when no two identifiers are ever shown as that one |
| RawCalls.CardNamesCallIff | scripts/native-backend-demo.py:536-540 | cards that show this call, their meta direct or nested as text, always speak of the one call that arrived exactly when no two identifiers are ever shown as that one |
| NativeRun.EvidencedApproval | scripts/native-backend-demo.py:377-573 | passing evidence for an approved phase means one reviewed, exact, POSTed card whose cleaned call is the only one and is answered by the single service invocation |
| NativeRun.EvidencedCrewDenial | scripts/native-backend-demo.py:377-573 | passing crew evidence means a blocked call, no service event and no approving POST |
| NativeRun.EvidencedCallIsOneRawCall | scripts/native-backend-demo.py:506-527 | a filed row that passes shows one cleaned call, and showed one raw call if that identifier is unambiguous |
| NativeRun.ApprovedCallIsRawCall | scripts/native-backend-demo.py:536-540 | if the identifier shown is unambiguous, the approved card speaks of the one raw call of the turn |
| SelInterval.AnchoredIntervalIsSound | scripts/capture-native-client-evidence.py:85-97 | on any page the interval is accepted exactly when the page holds the checkpointed record itself |
| SelInterval.IntervalIsExact | scripts/capture-native-client-evidence.py:76-97 | over an append-only log it succeeds exactly when fewer than 1000 records were appended and returns exactly those, newest first |
| SelInterval.BothWaysAgree | scripts/native-backend-demo.py:305-310 | whenever the runner's identifier difference succeeds the anchored interval does, selecting the same records of the caller |
| SelInterval.ValidIdsIff | scripts/capture-native-client-evidence.py:76-80 | a page is valid exactly when every record has a nonempty text identifier and no two the same |
| SelInterval.CheckpointIs | scripts/capture-native-client-evidence.py:76-82 | a checkpoint is the number of records and the newest one's identifier and digest |
| LogScan.ParseIsRows | scripts/reconcile-native-client-evidence.py:54-59 | a snapshot is accepted exactly when it is a concatenation of newline-closed rows of at most 65536 bytes that decode |
| LogScan.ReadLine | scripts/reconcile-native-client-evidence.py:55 | what a bounded `readline` returns |
| LogScan.ScanFile | scripts/reconcile-native-client-evidence.py:52-66 | terminates; succeeds exactly on a well-formed snapshot within the match bound, with totals of all its rows |
| LogScan.MineIsExact | scripts/reconcile-native-client-evidence.py:61-65 | exported are exactly the caller's rows in the window, each once, in file order |
| LogScan.AbsorbAllAddsUp | scripts/reconcile-native-client-evidence.py:61-66 | the window count is exported rows plus counted others, and each counter is the number of its rows |
| LogScan.Scan | scripts/reconcile-native-client-evidence.py:34-75 | the scan fails exactly when a bound, row or recheck fails; otherwise events, counts, flattened counters and the bracketing flag are exact over all files |
| LogScan.ReportAddsUpIff | scripts/reconcile-native-client-evidence.py:61-72 | the window count is exported rows plus flattened counters exactly when no two counted rows have different pairs that read the same |
| LogScan.FlattenKeepsTotal | scripts/reconcile-native-client-evidence.py:72 | flattening keeps the total exactly when no two keys collide |
| LogScan.FlattenGives | scripts/reconcile-native-client-evidence.py:72 | each joined name is exported once with the count of the last pair that reads so |
| LogScan.FlattenCanLoseCounts | scripts/reconcile-native-client-evidence.py:72 | two keys with a colon collide and lose a count |
| HookRetirement.RetiredRemovesOneEntry | scripts/manage-demo-mcp.py:153-163 | exactly one list entry goes; every other entry, hook and field stays |
| HookRetirement.RetiredChangesIff | scripts/manage-demo-mcp.py:161-162 | the configuration changes exactly when the entry is in the list |
| HookRetirement.BackupRestores | scripts/manage-demo-mcp.py:275-276 | putting the backed-up list back restores the configuration exactly |
| HookRetirement.RetiredTwice | scripts/manage-demo-mcp.py:153-163 | retiring is idempotent |
| HookRetirement.RetiredAcceptsIff | scripts/manage-demo-mcp.py:155-159 | accepted exactly when the deny list can be read as texts with at most one entry of the demo |
| HookRetirement.RetiredGives | scripts/manage-demo-mcp.py:153-163 | the demo's entry goes from wherever it stands; all other entries, hooks and fields keep their value |
| RetirementProtocol.EveryRunIsSound | scripts/manage-demo-mcp.py:262-309 | every interleaving of attempts, writers, crashes and children that outlive their attempt keeps lock, backup, log and report invariants |
| RetirementProtocol.NoUpdateIsLost | scripts/manage-demo-mcp.py:298-304 | every change was made to what the previous one left |
| RetirementProtocol.AttemptsOnlyRetire | scripts/manage-demo-mcp.py:298-309 | an attempt's only effect replaces the value it read by that value less one entry, with a full backup on disk |
| RetirementProtocol.RetirementsAreSeparated | scripts/manage-demo-mcp.py:264-266 | two retirements never follow each other without a writer between |
| RetirementProtocol.SuccessIsReal | scripts/manage-demo-mcp.py:307-309 | a reported success made its own swap of the planned file |
| RetirementPlans.AttemptsFollowPlans | scripts/manage-demo-mcp.py:262-304 | an attempt never changes anything but the very file it was planned for |
| RetirementPlans.LoadsIff | scripts/manage-demo-mcp.py:262-265 | an attempt goes on exactly for the planned file with the demo's entry in a readable list, has nothing to do exactly without the entry, and stops otherwise |
| RetirementPlans.ReusesIff | scripts/manage-demo-mcp.py:279-283 | an existing backup is reused exactly when it holds what the attempt would write, and is never written over |
| RetirementPlans.SwapsIff | scripts/manage-demo-mcp.py:298-304 | the swap happens exactly when the file still holds the value first read |
| RetirementPlans.SucceedsIff | scripts/manage-demo-mcp.py:307-309 | success is reported exactly when the file read again holds the retired value |
| RetirementPlans.OrphanSwaps | scripts/manage-demo-mcp.py:304-306 | the swapping child of an attempt that died still gets the lock and swaps an unchanged file |
| RetirementPlans.WriterWritesThrough | scripts/manage-demo-mcp.py:298-304 | a writer that finds the lock free and keeps it writes what it wants and frees the lock |
| RetirementPlans.WriterMayGiveUp | scripts/manage-demo-mcp.py:298-304 | a writer that raises inside the lock leaves the file as it was and the lock free |
| RetirementPlans.CrashFreesLock | scripts/manage-demo-mcp.py:298-306 | an attempt that dies with its child leaves file and lock to others |
| RetirementProtocol.RerunCompletesIff | scripts/manage-demo-mcp.py:277-288 | a rerun completes exactly when the backup is not half written, reusing a complete one |
| RetirementProtocol.CrashAfterBackupIsRecoverable | scripts/manage-demo-mcp.py:279-283 | after a crash between backup and swap the rerun reuses the identical backup and completes |
| RetirementProtocol.CrashDuringBackupBlocksReruns | scripts/manage-demo-mcp.py:277-288 | right after a crash inside the backup write a rerun stops and nothing changes |
| RetirementProtocol.CrashDuringBackupIsForGood | scripts/manage-demo-mcp.py:277-288 | after such a crash, in every continuation that backup stays half written and no attempt at that file gets past it |
| Mp4Boxes.LayoutIsUnique | scripts/demo-clips.py:216-228 | a file has at most one box layout |
| Mp4Boxes.PositionsDecide | scripts/demo-clips.py:227-229 | comparing the first recorded positions decides the question for the layout |
| Mp4Boxes.Faststart | scripts/demo-clips.py:211-229 | terminates; true exactly when the whole file is a box layout whose first moov precedes its first mdat |
| Mp4Boxes.TruncatedSizeIsNotFaststart | scripts/demo-clips.py:221-226 | a file whose boxes lead to a 64-bit size cut off by its end fails, whatever bytes of the size are left |
| Mp4Boxes.ReadIsWritten | scripts/demo-clips.py:217-225 | the box read at a position, written again, gives the same bytes |
| Mp4Boxes.HeaderOfWritten | scripts/demo-clips.py:217-225 | a written box is read with its own size and kind, in all three size forms |
| Mp4Boxes.FaststartIffWritten | scripts/demo-clips.py:211-229 | a file passes exactly when it can be written as boxes, moov before mdat, and fewer than 8 bytes after them |
| Bytes.FirstByteIsLargest | scripts/demo-clips.py:217-222 | in a big-endian number the first byte counts for as many of the later ones as they can spell |
| JpegMarkers.ScreenshotInfo | scripts/build-admin-walkthrough.py:183-204 | terminates; returns dimensions exactly when the marker chain leads to a first frame with those nonzero dimensions |
| JpegMarkers.ImageInfo | scripts/build-native-admin-tour.py:348-372 | the same for the chain that also steps over stray bytes and refuses lengths below 2 |
| JpegMarkers.WalkersAgreeIff | scripts/build-native-admin-tour.py:365-367 | when the strict walk succeeds the tolerant one agrees exactly when all segments passed are at least 2 long |
| JpegMarkers.TolerantSeesMore | scripts/build-native-admin-tour.py:352-354 | a stray byte defeats only the strict walker |
| JpegWritten.BothReadWritten | scripts/build-admin-walkthrough.py:183-204 | of any file written as segments and a frame header, fill bytes included, both walkers return the width and height spelled there |
| JpegWritten.TolerantReadsWritten | scripts/build-native-admin-tour.py:348-372 | the tolerant walker finds dimensions exactly in files written as stray bytes, markers and segments, and a frame header that spells them |
| ProcessWalk.ConfirmedChildren | scripts/inspect-native-session-namespace.py:157-161 | the children queued are exactly those confirmed by their parent identifier |
| ProcessWalk.Walk | scripts/inspect-native-session-namespace.py:143-178 | terminates; visits each reachable process once and nothing else, in breadth-first order; on a healthy tree the bound is hit exactly when more than 64 are reachable |
| ProcessWalk.ListingIsUnique | scripts/inspect-native-session-namespace.py:143-162 | those promises leave one possible order |
| Sanitizer.CleanIsNoninterfering | scripts/native-backend-demo.py:85-108 | values that differ only under sensitive keys, past the list bound, or so inside nested JSON text, clean to the same output |
| Sanitizer.CleanIgnoresSensitiveContent | scripts/native-backend-demo.py:85-108 | the output can be computed from the value with all sensitive content removed, nested JSON text spelled again without it |
| SpelledText.LibraryExists | scripts/native-backend-demo.py:85-95 | a JSON library with all the properties assumed can exist, whatever the sanitizer's rules |
| Sanitizer.CleanedField | scripts/native-backend-demo.py:98-107 | a field whose name cleaning keeps holds its own value, cleaned |
| Sanitizer.CleanListsAreBounded | scripts/native-backend-demo.py:96-97 | every list in the cleaned structure has at most 1000 items |
| SanitizerLaw.CleanIff | scripts/native-backend-demo.py:85-108 | the output is exactly what the law allows, place by place: list items in order up to the bound, each name once with its last value cleaned or redacted, nested text as the text of its cleaned value, other text rewritten, scalars unchanged |
| JsonValues.FieldIff | scripts/native-backend-demo.py:506-509 | `get` on a dictionary finds the member of that name, and nothing where there is none |
| JsonValues.FieldOrIff | scripts/native-backend-demo.py:513 | `get` with a default falls back only where there is no such member |
| JsonValues.FalsyIff | scripts/native-backend-demo.py:508-510 | nothing, false, zero and whatever is empty is falsy, everything else truthy |
| JsonValues.IncludesIff | scripts/native-backend-demo.py:420 | text is `in` another when that one is something before it, it, and something after it |
| NodeSpans.SpanIsElement | detail-endpoint-panel.py:26-31 | counting tags finds the shortest balanced element at an opening tag, if there is one |
| NodeSpans.BalancedCloses | detail-endpoint-panel.py:28-31 | in a balanced document every opening tag is closed |
| NodeSpans.Canvas.Span | detail-endpoint-panel.py:26-31 | the counting loop computes the node's span and its two failures |
| NodeSpans.Canvas.ReplaceNode | detail-endpoint-panel.py:32-36 | the document becomes the specified replacement, or stays as it was |
| NodeSpans.ReplacedShape | detail-endpoint-panel.py:32-36 | only the node's element is touched; everything before and after it stays |
| NodeSpans.ReplacedIsBalanced | detail-endpoint-panel.py:32-36 | a balanced body keeps the document balanced |
| NodeSpans.LaterNodeUnchanged | detail-endpoint-panel.py:73-85 | after replacing a node a later node's element is found, and is what it was |
| NodeSpans.EarlierNodeUnchanged | detail-endpoint-panel.py:73-85 | after replacing a node an earlier node's element is found where it was, and is what it was |
| NodeSpans.ReplacementsCommute | detail-endpoint-panel.py:73-85 | replacing two disjoint nodes gives the same document in either order |
| NodeSpans.ReplacementsCommuteIff | detail-endpoint-panel.py:26-36 | with balanced bodies the order does not matter exactly when the earlier body does not mention the later node, or that mention and the later node already have the later body |
| NodeSpans.OrderCanMatter | detail-endpoint-panel.py:26-36 | two bodies for which the order shows |
| NodeSpans.Canvas.RemoveLegend | detail-endpoint-panel.py:105-111 | the legend's element is cut out; a missing legend raises, an unclosed one stays |
| NodeSpans.RemovalIsBalanced | detail-endpoint-panel.py:105-111 | cutting the legend out of a balanced document takes exactly its element and leaves it balanced |
| Turns.TurnsFrom | scripts/analyze-native-host-evidence.py:80-97 | the turns concatenate to the events inside turns; each starts with its only user message, holds chat_done only at its end, and is completed exactly then |
| Turns.TurnsFromHistory | scripts/analyze-native-host-evidence.py:100-119 | accepted exactly when complete and idle; drops exactly the messages before the first user message |
| ControlMap.PagesAreBalanced | scripts/build-native-control-presentation.py:968-973 | as few pages as six rows each allow, none empty, longer ones first by at most one row |
| ControlMap.PagesPartition | scripts/build-native-control-presentation.py:972-973 | pages follow each other from the first scene to the last |
| ControlMap.Deck.Add | scripts/build-native-control-presentation.py:945-948 | a new slide's number is its position |
| ControlMap.Deck.Build | scripts/build-native-control-presentation.py:959-1154 | the deck holds the cover, the architecture, the map pages and then one slide per scene, numbered by position |
| ControlMap.EveryLinkResolves | scripts/build-native-control-presentation.py:970-979 | each scene is listed once and its link is the number later given to its own slide |
| DesktopCutover.CutoverIsIdempotent | scripts/live_setup_desktop.py:95-115 | a second cutover changes nothing |
| DesktopCutover.RollbackAcceptsCutover | scripts/demo-cloud.py:413-422 | the rollback accepts whatever the cutover produces |
| DesktopCutover.RollbackAfterCutover | scripts/demo-cloud.py:405-426 | both together are the original with the local Gateway on and the one port entry gone, field order included |
| DesktopCutover.RollbackKeepsTheRest | scripts/demo-cloud.py:423-425 | every other field and every other remote host is unchanged |
| DesktopCutover.RoundTripIsOriginalIff | scripts/demo-cloud.py:413-425 | nothing but the local Gateway setting changed exactly when a hosts object without this port was there |
| DesktopCutover.CutoverAcceptsIff | scripts/live_setup_desktop.py:97-109 | the cutover goes ahead exactly for a selectable port whose entry says nothing it would overwrite |
| DesktopCutover.CutoverGives | scripts/live_setup_desktop.py:110-113 | the local Gateway is off, the port's entry has the four values, every other field, host and entry field is as before |
| DesktopCutover.RollbackAcceptsIff | scripts/demo-cloud.py:413-422 | the rollback goes ahead exactly when the port has no entry or one of the two accepted ones |
| DesktopCutover.RollbackGives | scripts/demo-cloud.py:423-425 | the local Gateway is on, the port has no entry, everything else is as before |

## Left out

- AWS, SSH, HTTP and WebSocket transport, file ownership and mode checks, timeouts and retry sleeps: only their results appear, as arbitrary values or as an exception at any step.
- The per-gateway availability checks after the route review, the image and instance checks of `preflight`, and the wording of its warnings.
- Field-by-field evidence validators, `corroborates`, `observations`, `analyze`, `registration_state` and `policy_posture`: long conjunctions of independent tests.
- The plan and registration half of `operate`: an attempt is bound to the hash of the planned configuration file, the rest of the plan is not modelled.
- Evidence.EvaluateRow: numbers and booleans never compare equal here, while Python equates 1 with True and 0 with False.
- Evidence.Evaluate: `Path(...).name` is a function parameter.
- The sanitizer's regular expressions: what they rewrite is a parameter, so whether two real identifiers are ever shown as one is a condition, not decided.
- Sanitizer.CleanIsNoninterfering: does not model Python's recursion limit, at which deeply nested JSON text falls back to plain text cleaning.
- NodeSpans.Canvas.Span: works on the stream of group tags, titles and text; recognising tags in characters, and an opening tag inside an attribute value, are not modelled.
- ProcessWalk.Walk: the process table stands still; the before-and-after identity check of each process is then always met.
- LogScan.Scan: what a failed scan has already collected is not modelled, only that it failed.
- LogScan.ScanFile: the digest of the snapshot and the projection of exported fields are not modelled.
- JpegMarkers.ImageInfo: the PNG branch, which reads two fixed fields, is not modelled.
- RetirementProtocol.NoUpdateIsLost: writers that bypass the product's lock are not modelled.
- ApprovalTheorems.PendingFileFollowsCard: the final renaming of leftover files when a run ends is not modelled.
- Page and slide markup, notes and media encoding.
