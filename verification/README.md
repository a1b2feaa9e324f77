# Verified core of trader-assist-v0

A Dafny model of the decision logic of trader-assist-v0, with proofs about every input,
every run or every reachable state. Each part is modelled in the form the program gives
it: validators that loop over dictionaries are methods with loops and dictionaries, objects
that update their fields are classes, pure arithmetic is functions. Beside each of them
stands a definition without running state, and the proofs connect the two in both directions.

* **Capture ledger** (`CaptureRecords`, `CaptureManifest`, `CaptureLedger`, `CaptureGraph`,
  `CaptureMarketPath`, `CaptureControl`, `CaptureCheckpoint`, `CaptureReferences`, `CaptureReplay`). Eight record
  kinds, a hash-linked manifest over them, the reference graph, the market-path series, the
  kill / integrity check / resume protocol, checkpoints and the replay report.
* **Public-data probe** (`RateWindows`, `WsSweep`, `LineReader`, `LogRecords`, `Qualification`,
  `QualificationHistory`, `FirstDeliveries`).
  The warm-up pacer and its 60-second budget, the REST weight accounting, the WebSocket outbound
  verifier, the chunked log reader with its envelope checks, and the reconnect qualification.
* **Exact decimals** (`Decimals`, `Precision`). The canonical decimal printer, its bounds and
  wire grammar, and step alignment.
* **Candle reconciliation** (`Candles`, `OuterJoin`, `Reconciliation`). Field differences, the
  full outer join of two candle extractions and the self-validating report.
* **Approvals** (`Promotion`, `Permit`). Promotion chains, execution authority and permits.
* **Control** (`Controller`, `CommentStore`, `CommentSchedules`). The package-state machine over
  whole runs, the canonical comment it is stored in, and updates of that comment that overlap.
* **Raw capture** (`JsonSize`, `SegmentNames`, `SegmentLog`, `RawWriter`). The rotating segment
  writer and what reading a session back gives.

`Wrappers` holds `Option`, `Text` Python's order on strings, and `Digits` decimal digits, powers of
ten and numerals.

SHA-256 is a function parameter. Its freedom from collisions is assumed only by
`CaptureCheckpoint.CheckpointDeterminesManifest`, as an explicit precondition on the entries at
hand; everything else holds for any hash function. A raised exception is a failure value.
Clocks are parameters. Times are integers in the unit of the source.

`dafny verify dfyconfig.toml` checks the project.

## Results that correct an expectation

* **Line reader.** A line strictly below the budget is never refused, wherever the file is cut
  (`LineReader.SmallLinesAreNeverRefused`). A line of exactly the budget is refused exactly when
  a read ends between its CR and what follows: `LineReader.BudgetRefusesExactly` gives the
  condition, `LineReader.CutDecidesForFullLine` the input that two ways of cutting treat
  differently.
* **Pacer.** The 400-weight budget holds for every clock that never goes back. For clocks that may,
  it holds for all calls exactly if no three calls come in the order grant, 60 seconds or more
  later, back within 60 seconds of the grant (`RateWindows.BudgetHoldsExactly`); each such triple
  puts at least 780 into one window (`RateWindows.ForgettingBreaksBudget`).
* **Pauses.** One pause resumes only to its own stage, but pausing while paused is never undone by
  any deliveries (`Controller.DoublePauseNeverEnds`). `Controller.PauseCanEnd` gives the exact
  condition: the stored stage is not itself a pause.
* **Comment store.** Deliveries one after another apply an event once. Of updates that overlap, all
  written events stay in the comment exactly if no write falls between another update's read and
  write (`CommentSchedules.KeptExactlyWhenSerial`); `CommentSchedules.InterleavedWriteIsLost` is
  the shortest schedule that loses one, with both writes reading back as wanted.
* **Reconciliation.** Binding two valid extractions fails exactly for a repeated key or for a pair
  under one key that has two open times or a differing whole number of more than 80 digits
  (`Reconciliation.Bind`); `Reconciliation.LongCountsDoNotBind` is such a pair.
* **Checkpoints.** Of the tests of an advance, the rollback comparison and the equality of
  checkpoints over equal manifests never fire (`CaptureCheckpoint.AdvancePassesTests`).
* **Segment names.** Within one date exactly a million names sort in the order of writing
  (`SegmentNames.OneDateSortsToAMillion`). A session's names do exactly if every segment numbered
  by a power of ten from a million up starts a new date (`RawWriter.SessionNamesSort`).

## Model

| member | source | states |
|---|---|---|
| `CaptureRecords.ValidateRecords` | src/trader_assist_v0/contracts/capture.py:865-881 | accepts exactly a tuple of valid records without a repeated version key |
| `CaptureRecords.OrderedUniqueIsDuplicateFree` | src/trader_assist_v0/contracts/capture.py:85-89 | a list equal to its sorted duplicate-free form has no duplicates |
| `CaptureManifest.ClassifyMeans` | src/trader_assist_v0/contracts/capture.py:991-1003 | the slot dictionary classifies an entry as its first occupant, or repetition, of the slot demands |
| `CaptureManifest.SlotTestMeans` | src/trader_assist_v0/contracts/capture.py:985-990 | the two slot dictionaries test that a record keeps one slot; the version dictionary adds nothing |
| `CaptureManifest.ValidateManifestChain` | src/trader_assist_v0/contracts/capture.py:949-1013 | the dictionary pass accepts exactly the chains of a definition without running state |
| `CaptureManifest.ClassificationIsDetermined` | src/trader_assist_v0/contracts/capture.py:949-1013 | in accepted chains the classification is a function of the (slot, version) sequence |
| `CaptureManifest.SlotsIdsAndVersionsCorrespond` | src/trader_assist_v0/contracts/capture.py:949-1013 | without conflicting duplicates, slots, record IDs and versions correspond one to one |
| `CaptureManifest.NewVersionIffUnique` | src/trader_assist_v0/contracts/capture.py:949-1013 | without conflicts, an entry lists a new version exactly when it is classified UNIQUE |
| `CaptureManifest.ListedVersionsAreTheRecords` | src/trader_assist_v0/contracts/capture.py:1007-1013 | the versions listed are the record tuple, no more and no less, and are counted alike |
| `CaptureManifest.EntriesAreRecordsPlusDuplicates` | src/trader_assist_v0/contracts/capture.py:949-1013 | entry count equals record count plus exact duplicates when nothing conflicts |
| `CaptureLedger.IndexById` | src/trader_assist_v0/contracts/capture.py:907-920 | the loop builds the index of every record ID to its versions in order |
| `CaptureLedger.ResolveMeans` | src/trader_assist_v0/contracts/capture.py:923-933 | a reference resolves exactly when one record and only one has that ID |
| `CaptureLedger.RequireEarlierMeans` | src/trader_assist_v0/contracts/capture.py:1016-1031 | the target is the unique record of that ID, listed strictly before the subject |
| `CaptureLedger.OrderByFirstListing` | src/trader_assist_v0/contracts/capture.py:936-946 | versions in the order of their first manifest entry, with its position |
| `CaptureLedger.LedgerIsCoherent` | src/trader_assist_v0/contracts/capture.py:1401-1413 | from a valid chain the ordered records, the ID index and the positions describe one ledger |
| `CaptureGraph.LinksMean` | src/trader_assist_v0/contracts/capture.py:1016-1220 | the tests on one record hold exactly if the records its references name are the earlier, own or listing ones demanded |
| `CaptureGraph.ValidateReferences` | src/trader_assist_v0/contracts/capture.py:1034-1220 | the loops decide exactly the links defined over the ordered records alone: one named record each, in the demanded order and roles |
| `CaptureGraph.CorrectionsReachAnOriginal` | src/trader_assist_v0/contracts/capture.py:1034-1062 | following corrections and supersessions ends at an earlier original of the same type |
| `CaptureGraph.LifecycleTellsTheTruth` | src/trader_assist_v0/contracts/capture.py:1162-1220 | a lifecycle event follows its subject, has its type and claims of it only what is so |
| `CaptureGraph.LifecycleEventsAgree` | src/trader_assist_v0/contracts/capture.py:1162-1220 | of the events about one subject only one of created, corrected, superseded occurs |
| `CaptureGraph.CorrectionEventsAreOrdered` | src/trader_assist_v0/contracts/capture.py:1199-1220 | target, corrected record and event describing it come in this order, with the actual relation |
| `CaptureGraph.PlansOfSignalAreItsReferences` | src/trader_assist_v0/contracts/capture.py:1065-1159 | a plan names a signal if and only if the signal lists the plan, and then follows it with its kind |
| `CaptureGraph.ShadowsOfSignalAreItsReferences` | src/trader_assist_v0/contracts/capture.py:1065-1159 | a shadow traces to a signal if and only if the signal lists it; never to WAIT |
| `CaptureGraph.EveryShadowHasASignal` | src/trader_assist_v0/contracts/capture.py:1125-1159 | every shadow traces, through its plan, to an earlier signal that is not WAIT |
| `CaptureGraph.PlanCountIsConserved` | src/trader_assist_v0/contracts/capture.py:1065-1159 | the plan references of all signals count the plan records exactly |
| `CaptureGraph.ShadowCountIsConserved` | src/trader_assist_v0/contracts/capture.py:1065-1159 | the shadow references of all signals count the shadow records exactly |
| `CaptureMarketPath.ValidateMarketPathSeries` | src/trader_assist_v0/contracts/capture.py:1223-1269 | the dictionary pass accepts exactly the series of a definition without running state |
| `CaptureMarketPath.NormalChunksAreOrdered` | src/trader_assist_v0/contracts/capture.py:1223-1269 | of two normal chunks of a series the later has the higher number and starts no earlier than the earlier ends |
| `CaptureMarketPath.NormalChunksLeaveNoGap` | src/trader_assist_v0/contracts/capture.py:1223-1269 | the normal chunks of a series carry every number from 0 up to their count |
| `CaptureMarketPath.CorrectionsReachANormalChunk` | src/trader_assist_v0/contracts/capture.py:1223-1269 | every correction chain ends at a normal chunk with the same series, number and window |
| `CaptureMarketPath.CorrectionChainIsUnique` | src/trader_assist_v0/contracts/capture.py:1223-1269 | a record corrects along one chain only |
| `CaptureMarketPath.WindowsCoincideOrAreDisjoint` | src/trader_assist_v0/contracts/capture.py:1223-1269 | any two windows of a series coincide or are disjoint, and come from one source |
| `CaptureControl.ValidateControlEvents` | src/trader_assist_v0/contracts/capture.py:1284-1353 | the event loop accepts exactly the acceptable event sequences and records what it should |
| `CaptureControl.ValidateRuntimeControlGraph` | src/trader_assist_v0/contracts/capture.py:1272-1391 | both loops accept exactly the definition without running state; three defensive tests never fire |
| `CaptureControl.DefensiveResumeTestsNeverFire` | src/trader_assist_v0/contracts/capture.py:1336-1342 | "already resolved" and "wrong owner" are unreachable for a resume |
| `CaptureControl.ResumeFollowsKillAndCheck` | src/trader_assist_v0/contracts/capture.py:1330-1353 | every resume answers its scope's pending kill, with a check of the scope strictly in between |
| `CaptureControl.NothingServesTwoResumes` | src/trader_assist_v0/contracts/capture.py:1272-1391 | no permit, kill state or integrity check serves two resumes |
| `CaptureControl.ControlIsSingleUse` | src/trader_assist_v0/contracts/capture.py:1293-1391 | no permit starts or resumes twice, no kill state is engaged twice, no integrity check completed twice |
| `CaptureControl.ControlRefsAreNoRecords` | src/trader_assist_v0/contracts/capture.py:1285-1292 | no scope, permit or integrity reference is the ID of a record |
| `CaptureControl.ScopesAlternate` | src/trader_assist_v0/contracts/capture.py:1272-1391 | at every point a scope has as many resumes as kills, or one kill more while one is pending |
| `CaptureControl.PermittedStateIsBacked` | src/trader_assist_v0/contracts/capture.py:1366-1391 | a permitted kill state is backed by a kill, a check and a resume in this order |
| `CaptureControl.AcceptanceIsPrefixClosed` | src/trader_assist_v0/contracts/capture.py:1272-1391 | every prefix of an accepted ledger is accepted |
| `CaptureCheckpoint.ValidateCheckpoint` | src/trader_assist_v0/contracts/capture.py:1421-1443 | accepts exactly valid inputs whose checkpoint restates the chain's ends and counts |
| `CaptureCheckpoint.ValidateAdvance` | src/trader_assist_v0/contracts/capture.py:1446-1477 | accepts exactly two checkpointed ledgers of which the newer manifest extends the older |
| `CaptureCheckpoint.AdvancePassesTests` | src/trader_assist_v0/contracts/capture.py:1456-1477 | the further tests of an advance follow from that relation |
| `CaptureCheckpoint.AdvanceKeepsEveryVersion` | src/trader_assist_v0/contracts/capture.py:1446-1477 | an advance loses no record version, and the record counts are the tuples' sizes |
| `CaptureCheckpoint.RollbackTestIsImplied` | src/trader_assist_v0/contracts/capture.py:1470-1477 | the rollback test cannot fire once the prefix test has passed on a longer manifest |
| `CaptureCheckpoint.RunAdvances` | src/trader_assist_v0/contracts/capture.py:1446-1477 | over any run of advances the first ledger advances to the last and no version is lost |
| `CaptureCheckpoint.AdvanceBothWays` | src/trader_assist_v0/contracts/capture.py:1446-1477 | advancing both ways leaves manifest, checkpoint and version set the same |
| `CaptureCheckpoint.CheckpointDeterminesManifest` | src/trader_assist_v0/contracts/capture.py:1421-1443 | without collisions among the entries, one checkpoint fixes the manifest and the version set |
| `CaptureCheckpoint.CollisionDefeatsCheckpoint` | src/trader_assist_v0/contracts/capture.py:1421-1443 | for any two record versions some hash with a collision lets both ledgers match one checkpoint |
| `CaptureReplay.ValidateRecordGraph` | src/trader_assist_v0/contracts/capture.py:1394-1418 | accepts exactly valid inputs whose chain, references, market paths and control are accepted |
| `CaptureReferences.MissingCountMeans` | src/trader_assist_v0/contracts/capture.py:1480-1511 | the collected count is the number of reference fields, over all records, that name no record |
| `CaptureReferences.CountMissingReferences` | src/trader_assist_v0/contracts/capture.py:1480-1511 | the count field by field for the eight record types, and zero exactly if every reference names a record |
| `CaptureReplay.EveryReferenceIsKnown` | src/trader_assist_v0/contracts/capture.py:1480-1511 | in an accepted ledger every reference of a record, of any type, names a record |
| `CaptureReplay.AcceptedGraphMissesNothing` | src/trader_assist_v0/contracts/capture.py:1480-1511 | the independent count is zero whenever chain and graph validate |
| `CaptureReplay.BuildReplayReport` | src/trader_assist_v0/contracts/capture.py:1514-1557 | PASS is exactly chain and checkpoint integrity without conflicting duplicates |
| `CaptureReplay.PassMeans` | src/trader_assist_v0/contracts/capture.py:1514-1557 | PASS certifies entry, record and duplicate counts and the one-to-one correspondence |
| `RateWindows.RollingWeight` | scripts/e4_nautilus_public_data_probe.py:398-408 | the deque pass returns the largest weight of any 60-second window, at any instant |
| `RateWindows.ScanSorted` | scripts/e4_nautilus_public_data_probe.py:400-408 | on sorted events the peak bounds every window and is reached by one |
| `RateWindows.PeakIsUnique` | scripts/e4_nautilus_public_data_probe.py:398-408 | at most one number bounds every window and is reached |
| `RateWindows.WarmupDispatchPacer.Reserve` | scripts/e4_nautilus_public_data_probe.py:118-138 | one reservation: its answer and the pacer's whole new state |
| `RateWindows.PacerKeepsBudget` | scripts/e4_nautilus_public_data_probe.py:118-138 | with a clock that never goes back no 60-second window of grants exceeds 400, and the peak is exact |
| `RateWindows.GrantedExactlyWithinBudget` | scripts/e4_nautilus_public_data_probe.py:125-138 | a call is granted exactly when it is well formed, after the quiet time, and its window stays within 400 |
| `RateWindows.BudgetHoldsExactly` | scripts/e4_nautilus_public_data_probe.py:118-138 | for given clock readings the budget holds for all calls exactly if no expired grant comes within reach again |
| `RateWindows.ForgettingBreaksBudget` | scripts/e4_nautilus_public_data_probe.py:125-138 | every clock that lets a grant expire and comes back near it lets one window hold at least 780 |
| `RateWindows.SteadyClockNeverForgets` | scripts/e4_nautilus_public_data_probe.py:125-138 | a clock that never goes back meets the exact condition |
| `RateWindows.WarmupEventsTotal` | scripts/e4_nautilus_public_data_probe.py:994-1010 | the weight of a window is 20 a request dispatched in it, the extra debits and the retries |
| `RateWindows.RestEventsTotal` | scripts/e4_nautilus_public_data_probe.py:1010-1013 | the REST weight adds the metadata retries and 100 for the metadata burst |
| `RateWindows.AccountRest` | scripts/e4_nautilus_public_data_probe.py:994-1017 | the peaks are the largest of those totals over all windows; each blocker is raised exactly for its reason |
| `RateWindows.ActualsAreDominated` | scripts/e4_nautilus_public_data_probe.py:994-1017 | actual weights within reservations never outweigh the reservations in any window |
| `RateWindows.PacedRequestsStayWithinRestBudget` | scripts/e4_nautilus_public_data_probe.py:118-138 | requests the pacer granted, within their reservations and after the quiet boundary, stay within both budgets |
| `WsSweep.SomePointDominates` | scripts/e4_nautilus_public_data_probe.py:1162-1196 | the window at any instant is outweighed by the window at some evaluated point |
| `WsSweep.CursorsCountWindow` | scripts/e4_nautilus_public_data_probe.py:1183-1189 | the two cursors count exactly the controls of the window, by kind |
| `WsSweep.MergePoints` | scripts/e4_nautilus_public_data_probe.py:1162-1169 | the merged points are sorted and contain every control time and every stored point |
| `WsSweep.EvaluateWindow` | scripts/e4_nautilus_public_data_probe.py:1189-1200 | the evaluated bound is the outbound total of that window |
| `WsSweep.SweepPoints` | scripts/e4_nautilus_public_data_probe.py:1170-1210 | the loop returns the largest evaluated window and blocks exactly above the ceiling |
| `WsSweep.Sweep` | scripts/e4_nautilus_public_data_probe.py:1162-1217 | the peak bounds the window at every integer instant and is reached by one |
| `WsSweep.CheckFeed` | scripts/e4_nautilus_public_data_probe.py:1088-1104 | the input tests, with the end of the previous epoch, accept exactly ordered epochs, positive times and small reserves |
| `WsSweep.CleanMeans` | scripts/e4_nautilus_public_data_probe.py:1108-1156 | a trace is clean exactly if nothing in it is suspect and its controls come in order, each while a connection lasts |
| `WsSweep.IntersectsMeans` | scripts/e4_nautilus_public_data_probe.py:1190 | a connection counts in a window exactly if the window has an instant of it |
| `WsSweep.CollectControls` | scripts/e4_nautilus_public_data_probe.py:1108-1156 | the loop keeps exactly the unsuspicious controls and finds a trace clean exactly when no record is ambiguous |
| `WsSweep.KeptAreSorted` | scripts/e4_nautilus_public_data_probe.py:1121-1136 | the kept controls are sorted by time |
| `WsSweep.CleanKeepsAll` | scripts/e4_nautilus_public_data_probe.py:1121-1136 | a clean trace loses no ping and no pong |
| `WsSweep.OutboundOfTrace` | scripts/e4_nautilus_public_data_probe.py:1183-1196 | the outbound total counts the ping and pong frames of the trace itself |
| `WsSweep.VerifyOutbound` | scripts/e4_nautilus_public_data_probe.py:1088-1217 | each blocker is raised exactly for its reason; PASS means a clean trace with a pong frame and no window of its frames anywhere over 1000 |
| `LineReader.SplitIsTheTiling` | scripts/e4_nautilus_public_data_probe.py:557-604 | one scan is the only way to cut the text into lines, separators and a tail that tile it |
| `LineReader.DrainBuffer` | scripts/e4_nautilus_public_data_probe.py:557-567 | the inner loop emits the completed lines of the buffer, or stops at one that does not fit |
| `LineReader.CharBytesAreFewest` | scripts/e4_nautilus_public_data_probe.py:563-564 | a character is counted with the fewest bytes of UTF-8 that carry its code point |
| `LineReader.ReadFile` | scripts/e4_nautilus_public_data_probe.py:551-604 | reading, draining and measuring in turn is the specified reader |
| `LineReader.CutsAreInvisible` | scripts/e4_nautilus_public_data_probe.py:551-604 | however the file is cut, a reader that is not stopped emits the lines and tail of one scan |
| `LineReader.RoundsRefuseExactly` | scripts/e4_nautilus_public_data_probe.py:564-597 | a read is refused for a line or a leftover that does not fit, and for nothing else |
| `LineReader.BudgetRefusesExactly` | scripts/e4_nautilus_public_data_probe.py:564-597 | the exact condition of refusal: a line over budget, or a cut behind the CR of a full line |
| `LineReader.SmallLinesAreNeverRefused` | scripts/e4_nautilus_public_data_probe.py:564-597 | lines strictly below the budget are accepted wherever the file is cut |
| `LineReader.FinalNewlineLeavesNoTail` | scripts/e4_nautilus_public_data_probe.py:603-608 | a text ending in LF leaves no unfinished tail |
| `LineReader.CutDecidesForFullLine` | scripts/e4_nautilus_public_data_probe.py:559-597 | for every budget a full line ended by CR LF is accepted uncut and refused when cut behind the CR |
| `LogRecords.CheckLines` | scripts/e4_nautilus_public_data_probe.py:565-583 | accepts exactly lines that parse to the envelopes of one run: own separator first, no foreign marker, one title at most |
| `LogRecords.ReadRecords` | scripts/e4_nautilus_public_data_probe.py:535-608 | a text that fits the budget is accepted exactly if it is a complete log of one run, whatever pieces it is read in |
| `Qualification.QualificationObservation.Request` | scripts/e4_nautilus_public_data_probe.py:156-160 | the recorder's whole new state after a reconnect request |
| `Qualification.QualificationObservation.Socket` | scripts/e4_nautilus_public_data_probe.py:162-173 | the recorder's whole new state after a socket change |
| `Qualification.QualificationObservation.Process` | scripts/e4_nautilus_public_data_probe.py:175-203 | the recorder's whole new state after a bar |
| `Qualification.PercentileIsMaximum` | scripts/e4_nautilus_public_data_probe.py:216-226 | for 15 or 3 bars the 95th percentile test looks at the largest lag, so it bounds every lag |
| `Qualification.StreamPassesExactly` | scripts/e4_nautilus_public_data_probe.py:213-229 | the stream tests accept exactly an unbroken, timely tiling in any order of arrival |
| `Qualification.Evaluate` | scripts/e4_nautilus_public_data_probe.py:205-230 | reports exactly the failures, the missing phases and the streams that do not tile |
| `Qualification.RunKeeps` | scripts/e4_nautilus_public_data_probe.py:142-203 | over every run the phases come in order and retained bars close inside the window |
| `Qualification.FailuresPersist` | scripts/e4_nautilus_public_data_probe.py:142-203 | no later input clears a recorded failure |
| `Qualification.TilingStartsAtWindow` | scripts/e4_nautilus_public_data_probe.py:175-203 | a tiling fills the window: it begins within one step of the opening and ends within one step of the end, every lag 0 to 30 seconds |
| `Qualification.CleanRunMeans` | scripts/e4_nautilus_public_data_probe.py:142-230 | a clean evaluation means one request, a window within 60 seconds of it and every stream tiling the 15 minutes |
| `Qualification.WindowFollowsRequest` | scripts/e4_nautilus_public_data_probe.py:142-203 | with inputs in clock order the window opens no earlier than the sole request |
| `FirstDeliveries.KeepsMeans` | scripts/e4_nautilus_public_data_probe.py:193-203 | a stream keeps exactly the first delivery under each key, while it has room |
| `QualificationHistory.RunHolds` | scripts/e4_nautilus_public_data_probe.py:142-203 | over every run the recorder holds what its inputs say: last request, drop and reconnect, recovered streams, window and bars |
| `QualificationHistory.FailuresAreCaused` | scripts/e4_nautilus_public_data_probe.py:156-203 | each failure is recorded exactly if one of the inputs so far causes it |
| `QualificationHistory.CleanRunHistory` | scripts/e4_nautilus_public_data_probe.py:156-203 | without a failure: one request, one disconnect after it at most, only reconnects, no bar before its close, a window within a minute |
| `QualificationHistory.CleanRunRepeatsNothing` | scripts/e4_nautilus_public_data_probe.py:193-203 | without a failure no bar of the window is delivered twice |
| `Decimals.ProjectedLengthIsExact` | src/trader_assist_v0/contracts/common.py:105-134 | the projected length is the length of the canonical text |
| `Decimals.BoundsAreOneLengthTest` | src/trader_assist_v0/contracts/common.py:137-157 | the four bounds together accept exactly lengths up to 80 |
| `Decimals.RenderRoundTrip` | src/trader_assist_v0/contracts/common.py:160-174 | the canonical text is in the grammar and parses back to the same value |
| `Decimals.PositivePrintsPositive` | src/trader_assist_v0/contracts/common.py:32-38 | a value prints a text of the positive grammar exactly if it is positive |
| `Decimals.EqualIffSameText` | src/trader_assist_v0/contracts/common.py:160-174 | two decimals are numerically equal if and only if they print the same text |
| `Decimals.AcceptanceIsByValue` | src/trader_assist_v0/contracts/common.py:137-183 | equal values are accepted or refused together, with the same canonical text, whatever their coefficient and exponent |
| `Decimals.NormalIsUnique` | src/trader_assist_v0/contracts/common.py:90-102 | equal nonzero values have one normal form |
| `Decimals.LayoutRoundTrip` | src/trader_assist_v0/contracts/common.py:32-38 | a laid-out text is in the grammar and reads back as its parts |
| `Decimals.WireRoundTrip` | src/trader_assist_v0/contracts/common.py:32-38 | every text of the grammar is the layout of its parts |
| `Decimals.WireTextIsWithinBounds` | src/trader_assist_v0/contracts/common.py:186-203 | a grammar-valid text of at most 80 characters never fails the bounds afterwards |
| `Precision.AlignedIffMultiple` | src/trader_assist_v0/contracts/precision.py:50-63 | accepts exactly values within bounds that are integer multiples of a positive step, as rationals |
| `Precision.ScaleIsAlwaysConsistent` | src/trader_assist_v0/contracts/precision.py:35-47 | the "scale inconsistent" error is unreachable |
| `Precision.AlignmentIsByValue` | src/trader_assist_v0/contracts/precision.py:50-63 | trailing zeros and exponent form of either argument do not affect the verdict |
| `Candles.DifferIffTextsDiffer` | src/trader_assist_v0/contracts/candle_reconciliation.py:967-972 | two comparable values differ exactly when their wire texts differ |
| `Candles.DerivedDifferenceOk` | src/trader_assist_v0/contracts/candle_reconciliation.py:802-820 | a derived difference is accepted exactly when both values fit the wire type |
| `Candles.DifferencesMean` | src/trader_assist_v0/contracts/candle_reconciliation.py:975-993 | a difference is derived exactly if the values its field names differ, with their texts |
| `Candles.ExpectedDifferences` | src/trader_assist_v0/contracts/candle_reconciliation.py:975-993 | the loop reports exactly the differing fields, each once, in field order, or an error exactly when one does not fit |
| `Candles.RangesMean` | src/trader_assist_v0/contracts/candles.py:124-153 | a candle's range tests by value: positive prices, low and high around open and close, no negative volume |
| `Candles.NoDifferenceMeansEqual` | src/trader_assist_v0/contracts/candle_reconciliation.py:975-993 | no difference is reported exactly when every comparable field is numerically equal |
| `Candles.RereadKeepsCandle` | src/trader_assist_v0/contracts/candles.py:124-153 | a valid candle stays valid through its JSON form, with the same texts |
| `Candles.RereadIsIdempotent` | src/trader_assist_v0/contracts/candle_reconciliation.py:961-964 | storing a stored candle changes nothing |
| `OuterJoin.KeyMap` | src/trader_assist_v0/contracts/candle_reconciliation.py:1102-1112 | the dictionary of a list by key, or an error exactly on a repeated key |
| `OuterJoin.ScanKeys` | src/trader_assist_v0/contracts/candles.py:197-211 | one pass accepts exactly lists of acceptable elements without a repeated key |
| `OuterJoin.SortKeys` | src/trader_assist_v0/contracts/candle_reconciliation.py:1137-1143 | the key set in the order of open time, whatever order the set yields |
| `OuterJoin.JudgeKeys` | src/trader_assist_v0/contracts/candle_reconciliation.py:1153-1197 | one item a key, or a refusal exactly when some key is refused |
| `OuterJoin.FullOuterJoin` | src/trader_assist_v0/contracts/candle_reconciliation.py:1135-1197 | succeeds exactly on joinable lists and returns their full outer join in increasing time |
| `OuterJoin.JoinIsUnique` | src/trader_assist_v0/contracts/candle_reconciliation.py:1115-1217 | two lists have one full outer join |
| `OuterJoin.JoinIgnoresOrder` | src/trader_assist_v0/contracts/candle_reconciliation.py:1115-1217 | rearranging the lists changes neither whether they join nor the result |
| `OuterJoin.JoinConserves` | src/trader_assist_v0/contracts/candle_reconciliation.py:1115-1217 | the items holding a side count that side's elements |
| `OuterJoin.JoinOfStored` | src/trader_assist_v0/contracts/candle_reconciliation.py:1241-1273 | the join of two lists is also the join of their stored forms |
| `Reconciliation.JudgeMeans` | src/trader_assist_v0/contracts/candle_reconciliation.py:1164-1170 | a pair is MATCH exactly when every comparable field is numerically equal, else CONFLICT |
| `Reconciliation.ValidateComparison` | src/trader_assist_v0/contracts/candle_reconciliation.py:1010-1074 | decides exactly the item rules: key, candles with the authority of their side, presence by status, exact differences |
| `Reconciliation.ValidIsJudged` | src/trader_assist_v0/contracts/candle_reconciliation.py:1010-1196 | filed candles with the extractions' authorities are a valid comparison exactly if it is the one the derivation makes of them |
| `Reconciliation.ValidIsFiled` | src/trader_assist_v0/contracts/candle_reconciliation.py:1010-1046 | a valid comparison is hashed from its own identity and time, holds a candle, and each candle with the authority of its side |
| `Reconciliation.ComparePair` | src/trader_assist_v0/contracts/candle_reconciliation.py:1164-1196 | comparing, storing and validating a pair gives the judged comparison, and it is valid |
| `Reconciliation.SingleIsAccepted` | src/trader_assist_v0/contracts/candle_reconciliation.py:1158-1163 | a key that one side holds is never refused |
| `Reconciliation.RevalidateExtraction` | src/trader_assist_v0/contracts/candle_reconciliation.py:911-957 | accepts exactly valid candles keyed by their identity hash without a repeated key, under their digest and the literals of the side |
| `Reconciliation.SidesAreDisjoint` | src/trader_assist_v0/contracts/candle_reconciliation.py:938-957 | no extraction passes for both sides |
| `Reconciliation.JoinableMeans` | src/trader_assist_v0/contracts/candle_reconciliation.py:1115-1197 | valid extractions fail only for a repeated key or an incomparable pair |
| `Reconciliation.Derive` | src/trader_assist_v0/contracts/candle_reconciliation.py:1115-1217 | exactly the bindable extractions have a report, and it is the one returned |
| `Reconciliation.ReportIsUnique` | src/trader_assist_v0/contracts/candle_reconciliation.py:1241-1273 | two extractions determine one report |
| `Reconciliation.CountsConserveCandles` | src/trader_assist_v0/contracts/candle_reconciliation.py:1151-1217 | the counts are the comparisons of each status; together they give each side's candle count and the number of items |
| `Reconciliation.ReportIgnoresOrder` | src/trader_assist_v0/contracts/candle_reconciliation.py:1115-1217 | rearranged extractions bind too, with the same counts and the same comparisons under their own authorities |
| `Reconciliation.StoredHasSameReport` | src/trader_assist_v0/contracts/candle_reconciliation.py:1241-1273 | deriving again from the stored extractions gives the same report |
| `Reconciliation.ValidateReport` | src/trader_assist_v0/contracts/candle_reconciliation.py:1241-1273 | accepts exactly the report its own extractions determine, with its scalar authorities and digest |
| `Reconciliation.Bind` | src/trader_assist_v0/contracts/candle_reconciliation.py:1276-1290 | binding succeeds exactly on bindable extractions: a derived report always validates |
| `Reconciliation.LongCountsDoNotBind` | src/trader_assist_v0/contracts/candle_reconciliation.py:979-997 | two valid extractions that do not bind: one trade count has 81 digits |
| `Promotion.CompareSubjects` | src/trader_assist_v0/contracts/strategy.py:355-357 | the field loop finds no mismatch exactly for equal subjects |
| `Promotion.CompareTimes` | src/trader_assist_v0/contracts/strategy.py:358-371 | no time failure exactly when the review follows and the start precedes expiry and revocation |
| `Promotion.ValidateTransition` | src/trader_assist_v0/contracts/strategy.py:317-373 | no failure is collected exactly when both records are valid and the second follows the first |
| `Promotion.ValidateChain` | src/trader_assist_v0/contracts/strategy.py:376-394 | the loop with its seen sets accepts exactly the well-linked chains |
| `Promotion.ChainExtends` | src/trader_assist_v0/contracts/strategy.py:376-394 | a longer chain is accepted exactly when its prefix is and the last link is good |
| `Promotion.BindNext` | src/trader_assist_v0/contracts/strategy.py:251-280 | a fresh record binds exactly when the chain extended by it is accepted |
| `Promotion.LegalMeans` | src/trader_assist_v0/contracts/strategy.py:66-101 | a transition goes one rung up the ladder, or off it for good, though never from a draft |
| `Promotion.ChainClimbs` | src/trader_assist_v0/contracts/strategy.py:66-101 | along a chain the state climbs, the subject stays and time does not go back |
| `Promotion.LinksAreExact` | src/trader_assist_v0/contracts/strategy.py:340-394 | predecessor IDs and hashes link exactly neighbouring records of a chain |
| `Promotion.ChainHasNoGap` | src/trader_assist_v0/contracts/strategy.py:358-394 | a record takes effect after its review and evidence, while the record before it is in force |
| `Promotion.StatesOccurOnce` | src/trader_assist_v0/contracts/strategy.py:66-101 | no state occurs twice in a chain |
| `Promotion.ChainIsShort` | src/trader_assist_v0/contracts/strategy.py:66-101 | a chain has at most eight records |
| `Promotion.LadderIsExact` | src/trader_assist_v0/contracts/strategy.py:66-101 | before quarantine or retirement a record's position is the rank of its state |
| `Promotion.ValidateExecutionAuthority` | src/trader_assist_v0/contracts/strategy.py:397-419 | returns the terminal record exactly when the chain confers authority at that instant |
| `Promotion.AuthorityHasOneShape` | src/trader_assist_v0/contracts/strategy.py:397-419 | Testnet authority comes from exactly four records, Mainnet from six, in the fixed order |
| `Promotion.EnvironmentFollowsPosition` | src/trader_assist_v0/contracts/strategy.py:54-63 | on the ladder the environment follows from the position |
| `Promotion.AuthorityIsLength` | src/trader_assist_v0/contracts/strategy.py:397-419 | an accepted chain authorizes exactly with four or six records on the ladder, from activation up to expiry or revocation |
| `Permit.ValidateDecisionBinding` | src/trader_assist_v0/contracts/approval.py:276-297 | no failure exactly when the decision names the proposal, falls in its window and approves its order |
| `Permit.CheckDeadlines` | src/trader_assist_v0/contracts/approval.py:374-384 | no failure exactly when the permit's last instant precedes every deadline |
| `Permit.CheckEnvironment` | src/trader_assist_v0/contracts/approval.py:386-409 | no failure exactly when state, history and pilot times meet the environment's rules |
| `Permit.EnvironmentTestsReduceToOrder` | src/trader_assist_v0/contracts/approval.py:386-409 | with authority at issue the state and history tests hold by themselves; only the pilot order is left |
| `Permit.AuthorityLasts` | src/trader_assist_v0/contracts/approval.py:377-384 | the deadline test is exactly authority at every instant the permit covers |
| `Permit.ValidatePermitBindings` | src/trader_assist_v0/contracts/approval.py:300-411 | accepted exactly when identities agree, the approval is in time, the pilot steps are ordered and authority lasts throughout |
| `Permit.PermitBindsOneChain` | src/trader_assist_v0/contracts/approval.py:341-372 | a permit is secured for one proposal, order, account, decision and promotion record only |
| `Permit.ApprovalIsOfThisOrder` | src/trader_assist_v0/contracts/approval.py:276-372 | what was approved is what the permit names: this decision on this proposal of this order, for one strategy |
| `Permit.PermitTimeline` | src/trader_assist_v0/contracts/approval.py:276-384 | proposal, approval, issue and expiry come in this order and the permit ends before every deadline |
| `Permit.PilotTimeline` | src/trader_assist_v0/contracts/approval.py:386-409 | a Mainnet permit follows eligibility, review, authorization and activation in this order; a Testnet permit has no review |
| `Controller.RoutedStageIsReached` | scripts/control/v5_controller.py:252-276 | from CI_WAIT every routed stage but CI_WAIT is accepted and is where the package lands |
| `Controller.RepairRouteFollowsTheRun` | scripts/control/v5_controller.py:252-276 | in any run only a semantic failure on the current head is routed to a repair, and to the one its repairs so far leave |
| `Controller.RunKeepsOk` | scripts/control/v5_controller.py:131-140 | validity survives every run |
| `Controller.RepairsAreCounted` | scripts/control/v5_controller.py:205-214 | the stored count is the number of fresh repair entries of the run |
| `Controller.AtMostTwoRepairs` | scripts/control/v5_controller.py:205-214 | no run from CONTROL_FREEZE enters a repair stage afresh more than twice |
| `Controller.DuplicateIsInvisible` | scripts/control/v5_controller.py:187-188 | delivering a recorded event again changes nothing, anywhere in a run |
| `Controller.AcceptedStaysRecorded` | scripts/control/v5_controller.py:215-219 | an accepted delivery stays recorded, so all its later copies are duplicates |
| `Controller.SinglePauseResumes` | scripts/control/v5_controller.py:189-200 | a pause from a working stage resumes to that stage and to no other |
| `Controller.PauseCanEnd` | scripts/control/v5_controller.py:189-200 | some delivery ends a pause exactly when the stored stage is not itself a pause |
| `Controller.DoublePauseNeverEnds` | scripts/control/v5_controller.py:189-200 | after pausing while paused no deliveries leave the pauses |
| `Controller.PauseReturnsToItsStage` | scripts/control/v5_controller.py:189-200 | deliveries from a working stage through pauses to a working stage return to the same stage |
| `Controller.StepMoves` | scripts/control/v5_controller.py:180-240 | each event keeps the effective stage, follows the table, wedges, or restarts on a new head |
| `Controller.RevisionIdentifiesState` | scripts/control/v5_controller.py:180-240 | within a run two states with one revision are the same state |
| `Controller.HeadIsKept` | scripts/control/v5_controller.py:222-240 | until the next head a package keeps the pushed head and tree and has no CI evidence of an older head |
| `Controller.OldHeadIsRefused` | scripts/control/v5_controller.py:180-240 | after a new head no delivery bound to another head changes anything, until the next head |
| `Controller.DoneOnlyThroughReview` | scripts/control/v5_controller.py:77-101 | DONE is reached only through CI_WAIT, the independent review and the human gate, after the last repair or head change |
| `Controller.CiOnlyAfterValidation` | scripts/control/v5_controller.py:77-101 | CI_WAIT is reached only behind a local validation and a publication on the same head |
| `Controller.ImplementOnlyAfterReview` | scripts/control/v5_controller.py:77-101 | IMPLEMENT is reached only behind a plan and its precode review |
| `Controller.ReplanIsFinal` | scripts/control/v5_controller.py:77-101 | from CONTROL_REPLAN no deliveries lead anywhere but into pauses |
| `Controller.DoneIsReachable` | scripts/control/v5_controller.py:77-101 | from every other working stage some run of fresh deliveries reaches DONE, in exactly the distance of the stage |
| `Controller.NoShortcut` | scripts/control/v5_controller.py:77-101 | no transition shortens the way to DONE by more than one stage |
| `Controller.DoneHasGreenCi` | scripts/control/v5_controller.py:252-276 | when CI decides where CI_WAIT leads, a DONE package had a success observed on the very head that is DONE |
| `CommentStore.CanonicalCommentStore.Apply` | scripts/control/v5_controller.py:287-304 | the comment changes only from the expected revision and stage, by one revision; the answer for a duplicate, a refusal and a write that lands or not |
| `CommentStore.CanonicalCommentStore.ApplyRepeatedly` | scripts/control/v5_controller.py:287-304 | one update delivered any number of times is applied once, as soon as one write lands |
| `CommentStore.SequentialUpdateIsRefused` | scripts/control/v5_controller.py:295-296 | reading after the other's write, an update accepted before it is refused |
| `CommentSchedules.KeptExactlyWhenSerial` | scripts/control/v5_controller.py:287-304 | in every schedule all written events stay exactly if no write falls between another update's read and write |
| `CommentSchedules.StepsDecide` | scripts/control/v5_controller.py:287-304 | when every update writes, the order of reads and writes alone decides |
| `CommentSchedules.SerialWriteIsAtomic` | scripts/control/v5_controller.py:287-304 | in a schedule without overlap each write does what a whole update at that point would do |
| `CommentSchedules.WriteExtendsRead` | scripts/control/v5_controller.py:290-301 | a write leaves what its update read, moved on, with its own key added |
| `CommentSchedules.InterleavedWriteIsLost` | scripts/control/v5_controller.py:287-304 | two updates that read before either writes: the earlier event is lost though both writes read back as wanted |
| `JsonSize.BytesAreLength` | src/trader_assist_v0/hyperliquid_raw_capture.py:206-238 | the counted size of a value is the length of its JSON text |
| `JsonSize.WrittenWithinMeasured` | src/trader_assist_v0/hyperliquid_raw_capture.py:206-238 | a line as written is never longer than the size budgeted for it |
| `SegmentNames.NamesSortByDate` | src/trader_assist_v0/hyperliquid_raw_capture.py:242 | of two of the first million segments the later sorts after the earlier exactly when its date is not earlier |
| `SegmentNames.PowerSortsFirst` | src/trader_assist_v0/hyperliquid_raw_capture.py:242 | at every power of ten from a million up the longer number sorts before the one it follows |
| `SegmentNames.NamesSortExactly` | src/trader_assist_v0/hyperliquid_raw_capture.py:242 | with dates that never go back, names sort in the order of writing exactly if dates change at those powers of ten |
| `SegmentNames.OneDateSortsToAMillion` | src/trader_assist_v0/hyperliquid_raw_capture.py:242 | within one date exactly a million names sort in the order of writing |
| `SegmentLog.Writer.FinishSegment` | src/trader_assist_v0/hyperliquid_raw_capture.py:223-232 | the writer's whole new state once the open segment is closed |
| `SegmentLog.Writer.StartSegment` | src/trader_assist_v0/hyperliquid_raw_capture.py:241-250 | the writer's whole new state once the next segment is open and holds a record |
| `SegmentLog.Writer.Append` | src/trader_assist_v0/hyperliquid_raw_capture.py:234-250 | the writer's whole new state after an append; refused without the lock |
| `SegmentLog.AppendIsDated` | src/trader_assist_v0/hyperliquid_raw_capture.py:239-250 | a record becomes the last line of a segment named by the date its append read |
| `SegmentLog.SegmentOpensForAReason` | src/trader_assist_v0/hyperliquid_raw_capture.py:239-247 | a segment is opened exactly for the first record, a new date, or a record that might not fit |
| `SegmentLog.RecordsAreFiledByDate` | src/trader_assist_v0/hyperliquid_raw_capture.py:234-250 | however a run goes on, every record stays in a segment named by the date read when it was appended |
| `SegmentLog.AppendKeeps` | src/trader_assist_v0/hyperliquid_raw_capture.py:234-250 | an append keeps every segment framed and bounded and adds exactly this record at the end |
| `SegmentLog.ShutKeeps` | src/trader_assist_v0/hyperliquid_raw_capture.py:223-232 | closing keeps the records |
| `SegmentLog.DateOfStamp` | src/trader_assist_v0/hyperliquid_raw_capture.py:239-242 | the date of a segment is the calendar date its stamp begins with |
| `SegmentLog.SegmentsAreBounded` | src/trader_assist_v0/hyperliquid_raw_capture.py:239-250 | before its end marker a segment of more than one record is within the limit |
| `SegmentLog.FramedReadBack` | src/trader_assist_v0/hyperliquid_raw_capture.py:234-267 | dropping the segment markers gives the records back exactly if none of them looks like one |
| `SegmentLog.NamesFollowWriting` | src/trader_assist_v0/hyperliquid_raw_capture.py:239-247 | with a clock that never goes back the writer's names sort in the order of writing exactly under that condition |
| `SegmentLog.AppendStamps` | src/trader_assist_v0/hyperliquid_raw_capture.py:223-250 | every marker that frames a segment is stamped by a reading of the clock |
| `SegmentLog.GoodLines` | src/trader_assist_v0/hyperliquid_raw_capture.py:223-267 | if the stamped markers are good, the lines of a closed log are good exactly if its records are |
| `RawWriter.CleanSession` | src/trader_assist_v0/hyperliquid_raw_capture.py:130-253 | a cleanly closed session leaves framed, bounded, stamped segments whose records are its own between two markers |
| `RawWriter.SessionIsFiledByDate` | src/trader_assist_v0/hyperliquid_raw_capture.py:234-253 | every record of a session lies in a file named by the date read when it was appended |
| `RawWriter.ReadRecords` | src/trader_assist_v0/hyperliquid_raw_capture.py:256-267 | yields the lines in order up to the first that is partial, no JSON or no envelope, and succeeds exactly if there is none |
| `RawWriter.SessionWithoutMarks` | src/trader_assist_v0/hyperliquid_raw_capture.py:180-253 | a session's lines without segment markers are its records, exactly if none of them looks like a marker |
| `RawWriter.SessionEnvelopes` | src/trader_assist_v0/hyperliquid_raw_capture.py:180-267 | with a clock whose readings are stamps, every line is an envelope exactly if every record is |
| `RawWriter.SessionReadsBack` | src/trader_assist_v0/hyperliquid_raw_capture.py:130-267 | end to end: the reader accepts a session exactly if every record is an envelope, and then gives it back exactly if none looks like a marker |
| `RawWriter.SessionNamesSort` | src/trader_assist_v0/hyperliquid_raw_capture.py:239-247 | the sorted file names of a session are its order of writing exactly if dates change at the powers of ten from a million up |

## Left out

- Pydantic's own behaviour (coercion, strict types, copy and construct bans) and fields no validator reads: a validated model is a predicate on a datatype.
- The computation of SHA-256, of record IDs and of canonical JSON: digests are function parameters applied to the hashed content.
- The version and contract literals of reconciliation reports and extractions, which are constants of their types.
- UTF-8 decoding: the log reader works on decoded text. What a line parses to is a parameter.
- `LineReader.ReadFile`: cuts and measures lines only; `LogRecords.ReadRecords` adds the envelope and header checks. The identity, state and digest of the log file are not modelled.
- Parsing of native log messages: the REST accounting and the WebSocket verifier start from classified records. The SQLite tables are sequences.
- The first 200 diagnostic windows and the progress callbacks of the sweep.
- The reported payload of the qualification (lag strings, percentages); its float division is an integer percentile index.
- Stage strings outside the enumeration, the comment's Markdown and JSON text, and the controller functions about pull requests, reviews and hand-offs.
- The file system: existing paths, locks held by others, fsync and the error paths of leaving a session.
- Order types, limit prices and step alignment of an order package inside a permit; `Precision` covers the alignment test itself.
- `validate_capture_replay_report`, safety policy and endpoint allow-list models, and the remaining contracts: equality checks that would only add easy members.
- Candle amounts are one sequence of five decimals rather than five named fields.
- `CaptureReferences.CountMissingReferences`: assumes a validated record tuple, as its only caller passes.
- `WsSweep.VerifyOutbound`: starts from classified records; which reconnect messages count as planned and the binding of the log file are not modelled.
