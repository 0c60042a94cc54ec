# Verified model of the crash prediction service

A Dafny model of the stateful core of the repository, with proofs. `dafny verify dfyconfig.toml` checks all of it.

Code that works by changing things step by step is modelled by classes and methods with loops. Each of them is proved
against a function on values, and the theorems are lemmas about those functions, mostly over all runs.

| file | models |
|---|---|
| `IsotonicCalibrator.dfy`, `IsotonicOptimality.dfy`, `IsotonicAnswers.dfy` | the pool-adjacent-violators fit, its least-squares optimality and uniqueness, when calibration is monotone, what it answers |
| `CalibrationState.dfy`, `RegimeSchedule.dfy`, `CalibrationError.dfy` | reliability bins, the observation ring, refits, regimes, shrinkage, the mean calibration error |
| `HandOffLock.dfy`, `PgliteDriver.dfy` | the asynchronous hand-off mutex and the database driver that refines it |
| `NativeProtobuf.dfy`, `ProtobufReader.dfy`, `ProtobufBytes.dfy`, `WireFrames.dfy` | the two codecs of the wire format and where they agree |
| `PeerNegotiation.dfy`, `PeerConvergence.dfy`, `P2PRoom.dfy`, `RoomMembership.dfy` | perfect negotiation between two peers and when it converges; roster and watchdog of a room |
| `BacktestEngine.dfy`, `BacktestRules.dfy` | the backtest ledger with an arbitrary predictor and its risk rules |
| `OnlineState.dfy`, `OnlineHistory.dfy`, `AcieEngine.dfy`, `AcieSnapshot.dfy` | the learner's weights, buckets and windows; the crash history, counters and snapshots |
| `RoundValidator.dfy` | the real-time event validator |
| `HotCache.dfy`, `Ingest.dfy` | the recent-round cache and the inserts behind it |
| `Csv.dfy`, `Export.dfy`, `ExportText.dfy` | CSV cells and a reader for them; the paged export and what its files read back as |
| `Sequences.dfy`, `Decimals.dfy`, `Wrappers.dfy` | what the others share |

Conventions. Numbers are exact: probabilities, balances and means are reals, ids, lengths and times are integers.
Integer widths are written out where the source has them: 32-bit words, length bytes, seven-bit groups. Dates, names and
UTF-8 text are opaque values or byte sequences. What the database, the network, the clock and the numerical library answer
is a parameter. Peer ids carry their rank in the order of their strings.

## What the proofs found

Where the code does not do what its comments or its use suggest, the code is modelled as it is.

- A score in an interior gap between two blocks is answered with the last block (`isotonic-calibrator.ts:66-67`), although
  the comment on line 57 speaks of the nearest mean. Calibration is therefore not monotone in general
  (`SomeFitIsNotMonotone`); `CalibrationRisesIff` says exactly when it is.
- The tolerance of 1e-12 in the pooling test is exact up to 2,000,000 pairs and not beyond: `FitsRiseIff` says so of the
  stored blocks, `ToleranceExactIff` of the test. The state keeps 2000.
- Two peers can fall quiet without agreeing. `makingOffer` stays set until the POST of an offer returns
  (`p2p.ts:293-300`), so an impolite peer whose offer has already been answered drops the next, non-colliding offer, and
  the polite peer keeps waiting (`LatePostStrandsThePair`).
- Two peers can also fall quiet on different sessions. When the watchdog replaces a connection whose offer is pending
  (`p2p.ts:521-530`), the answer to the old offer settles the new one, and the right answer is swallowed
  (`PendingRebuildRun`). A tab that wakes up with its answer still in the relay does this. `PendingRebuildSplits` shows
  that without a further offer it always ends so, and `ConvergesIff` that this and the late drop are the only steps of the
  model that can prevent convergence.
- The final weights of the ensemble can exceed the ceiling 0.32, because they are normalised after clamping:
  `SomeRunPassesTheCeiling` gives a run, `CeilingIsPassedIff` says when it happens, and 4/11 bounds all runs
  (`WeightsStayBalanced`).
- `readVarint` accepts up to eight groups, so 2^56 is its exact range, not 2^53. `readInt64` keeps the low 32 bits, not the
  53 its comment mentions (`RoundIdAgreesIff`).
- Nothing keeps a negative stake or cash-out multiplier out of a configuration, and the balance check then need not keep
  equity from going negative: `AlwaysSolventIff` lists exactly the configurations for which it does, `AWinOverdraws` gives
  the run for all others. `AlwaysWithinLimitIff` does the same for the drawdown bound.
- The daily entry limit counts a stretch of one day. The rounds are not sorted, the counter is reset at every change of
  day (`backtest-engine.ts:61-64`), and a day that comes back gets a second quota (`ReturningDayPassesTheCap`).
  `DailyCapIff` says on which rounds the limit holds.
- `destroy` of the driver is safe exactly while no connection is out (`DestroyIsSafeIff`, `DestroyWhileHeld`), and callers
  queued at that moment wait for good (`QueuedCallersAreLost`).
- A round whose insert is refused is cached as if it were stored and left out of later inserts (`RefusedRoundIsLost`).
  `CoverageIsKeptIff` and `RunsAreTransparentIff` say exactly when the cache makes no difference.
- Two rounds with one new id in a single batch are stored once and reported twice (`RepeatedIdIsReportedTwice`,
  `ReportIsTheGrowthIff`).
- The export starts above id 0, so rows with an id below 1 are lost (`ExportIsCompleteIff`). In CSV an absent value and an
  empty one look alike (`CellsPrintAlikeIff`).
- A crash that is rejected for its crash point uses up its round id (`RejectionUsesUpTheId`).
- A snapshot import appends to the history instead of restoring it, and leaves out points whose ids an earlier import has
  taken: a second snapshot keeps the first history but takes the new loss counter (`SecondImportKeepsTheOldHistory`).
  `EverySnapshotIsRestoredIff` says exactly which engines restore a history, `ImportedCounterAgreesIff` when the imported
  counter fits it.
- `hydrate` may lower the newest end id, also for a text such as "-1" or "" that is no round id, after which rounds already
  passed are counted as missed again (`HydrateLowersIff`, `MissedRoundsTelescopeFrom`).
- A negative sample count takes shrinkage outside the interval (`ShrinkageLiesBetween`).

## Model

| member | source | states |
|---|---|---|
| IsotonicCalibration.IsotonicCalibrator.Fit | src/lib/prediction/calibration/isotonic-calibrator.ts:18-53 | the in-place pooling loop ends (2·blocks − i falls) with the blocks `Pav(pairs)`; under 30 pairs unfit the calibrator and leave `sampleCount` alone |
| IsotonicCalibration.IsotonicCalibrator.Calibrate | src/lib/prediction/calibration/isotonic-calibrator.ts:55-68 | an unfitted calibrator is the identity, a fitted one answers with the clamped mean of the first block that holds the score, else the first block below the range, else the last block |
| IsotonicCalibration.StableSortSorts | src/lib/prediction/calibration/isotonic-calibrator.ts:24 | the sort yields a sorted permutation that keeps the order of observations with equal scores |
| IsotonicCalibration.PoolAtKeepsPartition | src/lib/prediction/calibration/isotonic-calibrator.ts:38-44 | pooling an adjacent violating pair keeps the list a partition of the sorted pairs into contiguous pools, so weight and hits are conserved |
| IsotonicCalibration.PavFits | src/lib/prediction/calibration/isotonic-calibrator.ts:24-51 | the result is a partition of all sorted pairs into pools in which every proper prefix averages more than the pool, and no neighbours violate the order |
| IsotonicOptimality.BlockMeansAreOptimal | src/lib/prediction/calibration/isotonic-calibrator.ts:32-49 | every rising assignment has at least the squared error of the block means plus its squared distance from them |
| IsotonicOptimality.FitIsTheIsotonicRegression | src/lib/prediction/calibration/isotonic-calibrator.ts:18-53 | the fitted values rise, no rising assignment has smaller squared error, and only the fit itself reaches it |
| IsotonicOptimality.ToleranceExactIff | src/lib/prediction/calibration/isotonic-calibrator.ts:37 | the 1e-12 tolerance never hides a violation between blocks of total weight n if and only if n is at most 2,000,000 |
| IsotonicOptimality.FitsRiseIff | src/lib/prediction/calibration/isotonic-calibrator.ts:18-53 | the blocks the loop stores for every list of n pairs have rising means if and only if n is at most 2,000,000 |
| IsotonicOptimality.FitMeansRise | src/lib/prediction/calibration/isotonic-calibrator.ts:33-49 | the means of a fit of at most 2,000,000 pairs do not fall |
| IsotonicOptimality.BlocksAreUnique | src/lib/prediction/calibration/isotonic-calibrator.ts:33-49 | two partitions of the same observations into ordered pools are equal |
| IsotonicOptimality.FitIsDetermined | src/lib/prediction/calibration/isotonic-calibrator.ts:18-53 | the contract of a fit leaves one block list for one list of pairs |
| IsotonicOptimality.FitIsACurve | src/lib/prediction/calibration/isotonic-calibrator.ts:38-43 | the score ranges of the blocks lie side by side in order, with means that do not fall |
| IsotonicAnswers.CalibrationAnswersTheRegression | src/lib/prediction/calibration/isotonic-calibrator.ts:55-68 | for every fit of a list of pairs: an observed score is answered with the regression value of its first observation, a score between two observations of one pool likewise, a score below all like the lowest observation, one above all or in an open gap like the highest, each cut to [0.01, 0.99] |
| IsotonicOptimality.CalibratedRisesOutsideGaps | src/lib/prediction/calibration/isotonic-calibrator.ts:55-68 | of two scores that lie in no interior gap the larger is never calibrated lower |
| IsotonicOptimality.CalibrationRisesIff | src/lib/prediction/calibration/isotonic-calibrator.ts:58-67 | calibration is monotone on all scores if and only if every open gap is followed only by blocks of the last level |
| IsotonicOptimality.GapBreaksMonotonicity | src/lib/prediction/calibration/isotonic-calibrator.ts:66-67 | a score in an open gap before a block below the last level is calibrated above the larger score that opens that block |
| IsotonicOptimality.SomeFitIsNotMonotone | src/lib/prediction/calibration/isotonic-calibrator.ts:55-68 | a concrete sample whose fit calibrates 0.25 above 0.4 |
| CalibrationMetrics.BinsHoldTheirObservations | src/lib/prediction/calibration/calibration-metrics.ts:19-25 | bin k counts and sums exactly the observations whose clamped score falls in the k-th tenth |
| CalibrationMetrics.BinMeansLieInRange | src/lib/prediction/calibration/calibration-metrics.ts:19-25 | the mean prediction of a bin lies in its range and its hits number between none and all |
| IsotonicAnswers.BrierSumIsSquaredError | src/lib/prediction/calibration/calibration-metrics.ts:40-43 | the Brier sum of a batch is the squared error of its own scores |
| CalibrationMetrics.LossAddsUp | src/lib/prediction/calibration/calibration-state.ts:120-126 | the loss sum of a batch is that of its single observations, however it is put together |
| CalibrationError.ExpectedCalibrationError | src/lib/prediction/calibration/calibration-metrics.ts:27-38 | the accumulating loop computes the count-weighted mean gap of the non-empty bins, 0 when there is none |
| CalibrationError.ErrorCoversTheBias | src/lib/prediction/calibration/calibration-metrics.ts:27-38 | over the bins of any batch the error lies in [0, 1] and is at least the distance between mean score and hit rate of the whole batch |
| CalibrationError.GapsCoverTheBias | src/lib/prediction/calibration/calibration-metrics.ts:33-35 | the summed gaps bound the overall bias and vanish if and only if every bin predicts as many hits as it has |
| CalibrationError.OnlineMeanCalibrationError | src/lib/prediction/acie/online-state.ts:256-267 | the loop over the buckets with at least three observations computes their mean gap, 0.1 when there is none |
| CalibrationError.OnlineErrorIsBounded | src/lib/prediction/acie/online-state.ts:256-267 | for every learner state reachable by updates the error lies in [0, 1] |
| CalibrationError.ErrorsAreMeanDistances | src/lib/prediction/acie/online-state.ts:256-267 | the online error is the mean distance between predictions and hits over the buckets with three observations or more, 0.1 if there is none; that of a batch the one over its bins that are not empty |
| CalibrationState.RegimeCalibrator.Record | src/lib/prediction/calibration/calibration-state.ts:87-95 | one observation is appended to the history, overwrites the oldest ring slot, and is added to the running sums |
| CalibrationState.RegimeCalibrator.PairsArray | src/lib/prediction/calibration/calibration-state.ts:97-109 | the ring reads back exactly the last min(k, maxPairs) observations, oldest first |
| CalibrationState.RegimeCalibrator.Rebuild | src/lib/prediction/calibration/calibration-state.ts:119-127 | bins, Brier sum, loss sum and n are those of the observations in the ring |
| CalibrationState.RegimeCalibrator.FitOne | src/lib/prediction/calibration/calibration-state.ts:116-136 | under 20 observations nothing changes; otherwise the sums restart from the ring and from 80 on the curve is the fit of the ring |
| CalibrationState.CalibrationState.Observe | src/lib/prediction/calibration/calibration-state.ts:65-85 | the clamped score goes to the global calibrator object and the named regime, the oldest regime is evicted when the table is full, and every `refitEvery` observations all are refitted |
| CalibrationState.CalibrationState.Refit | src/lib/prediction/calibration/calibration-state.ts:111-114 | the global calibrator object and every regime are refitted |
| CalibrationState.RingAndSumsFollowTheRun | src/lib/prediction/calibration/calibration-state.ts:65-136 | after any run of observe: every slot of the global ring holds its clamped observation, bins, Brier sum, loss sum and n are those of a batch over the ring at the last effective refit and everything since, and the curve is the fit of the ring at the last refit with 80 of them |
| CalibrationState.GlobalFollowsTheSchedule | src/lib/prediction/calibration/calibration-state.ts:65-136 | after any run the global history is all clamped observations in order, the sums cover exactly the ring at the last effective refit plus everything since, and the curve is the fit of the ring at that refit |
| CalibrationState.RegimesKeepTheirOwn | src/lib/prediction/calibration/calibration-state.ts:68-79 | the table remembers of a regime exactly its own observations since it was created last |
| CalibrationState.FewRegimesKeepEverything | src/lib/prediction/calibration/calibration-state.ts:68-79 | while no more regimes are named than the table holds, none is evicted and each keeps all of its observations |
| RegimeSchedule.RegimesFollowTheSchedule | src/lib/prediction/calibration/calibration-state.ts:68-136 | over every run a named regime remembers its own observations since its last creation, its sums leave out what its ring had lost at the last refit, and its curve is the fit of that ring |
| RegimeSchedule.OldestRegimeMakesRoom | src/lib/prediction/calibration/calibration-state.ts:71-76 | a regime leaves the table only when a new one needs its place, and then it is the one created longest ago |
| CalibrationState.CalibrationState.Calibrate | src/lib/prediction/calibration/calibration-state.ts:138-146 | the own curve, else the global object, else the logistic answers, else the clamped score |
| RegimeSchedule.CalibrationOrder | src/lib/prediction/calibration/calibration-state.ts:138-146 | after every run: with 80 own observations at the last refit the own regression answers, otherwise with 80 of all regimes the global one, otherwise the logistic answers in that order, otherwise the score cut to [0.001, 0.999] |
| CalibrationState.CalibrationState.CalibrateWithShrinkage | src/lib/prediction/calibration/calibration-state.ts:148-157 | the calibrated value blended with the baseline by sample count |
| CalibrationState.ShrinkageFollowsTheSamples | src/lib/prediction/calibration/calibration-state.ts:155-156 | no samples give the baseline and 200 or more the calibrated value; more samples never take the answer away from the calibrated value and below 200 bring it strictly nearer |
| CalibrationState.RunsAreWellFormed | src/lib/prediction/calibration/calibration-state.ts:65-85 | over every run the regime names are distinct, never the global one, and within the bound |
| CalibrationState.ShrinkageLiesBetween | src/lib/prediction/calibration/calibration-state.ts:148-157 | the shrunk value lies between the calibrated value and the baseline if and only if the sample count is not negative or the two are equal |
| CalibrationState.WarmCalibrationIsBounded | src/lib/prediction/calibration/calibration-state.ts:138-146 | once 80 observations have been refitted every calibrated value lies in [0.01, 0.99], whatever the regime and the refit setting |
| HandOffLock.GenerationLock.Enter | src/lib/prediction/generation-lock.ts:11-15 | up to the first suspension: queue behind a held lock, take a free one |
| HandOffLock.GenerationLock.Continue | src/lib/prediction/generation-lock.ts:13-15 | a woken waiter sets the flag and enters |
| HandOffLock.GenerationLock.Release | src/lib/prediction/generation-lock.ts:18-25 | settling the body, normally or not, hands over to the first waiter or unlocks |
| HandOffLock.MutualExclusionInArrivalOrder | src/lib/prediction/generation-lock.ts:11-26 | in every interleaving at most one body runs, entries are a prefix of the arrivals, and a waiter implies that the lock is held or being handed over |
| HandOffLock.NextArrivalIsServed | src/lib/prediction/generation-lock.ts:11-26 | after k bodies have settled the next arrival, if any, is the one running or being let in |
| HandOffLock.WaitersAreServed | src/lib/prediction/generation-lock.ts:18-25 | while somebody waits a step other than an arrival is possible |
| PgliteDriver.LazyPGliteDriver.AcquireConnection | src/lib/auth/pglite-dialect.ts:47-58 | fetch the client first if there is none, then claim the connection |
| PgliteDriver.LazyPGliteDriver.ClaimConnection | src/lib/auth/pglite-dialect.ts:51-57 | queue behind an open connection or open one |
| PgliteDriver.LazyPGliteDriver.ReleaseConnection | src/lib/auth/pglite-dialect.ts:60-70 | reject anything but the current connection; hand it to the first in the queue, or drop it |
| PgliteDriver.LazyPGliteDriver.DestroyDriver | src/lib/auth/pglite-dialect.ts:98-105 | client, connection and queue are forgotten |
| PgliteDriver.DriverRefinesLock | src/lib/auth/pglite-dialect.ts:47-70 | every driver call short of destroy is a run of the abstract lock, and no holder is rejected |
| PgliteDriver.OneHolderInOrder | src/lib/auth/pglite-dialect.ts:47-70 | over every run without destroy one caller at a time holds the connection, in the order of asking |
| PgliteDriver.DestroyIsSafeIff | src/lib/auth/pglite-dialect.ts:98-105 | some calls after destroying lead to two callers holding connections if and only if a connection is out |
| PgliteDriver.QueuedCallersAreLost | src/lib/auth/pglite-dialect.ts:98-105 | a caller queued when the driver is destroyed is never handed a connection, whatever the others do |
| PgliteDriver.DestroyWhileHeld | src/lib/auth/pglite-dialect.ts:47-105 | after destroying while a connection is held, a second caller gets a second one and the first holder's release is rejected |
| Varints.WriteVarint | src/lib/crash/native-protocol.ts:102-109 | the loop appends the low-first seven-bit groups of max(0, n) |
| Varints.ReadVarintAt | src/lib/crash/native-protocol.ts:80-100 | the fast paths and the loop compute the reading function at any offset |
| Varints.FastPathsAgree | src/lib/crash/native-protocol.ts:81-87 | the one- and two-byte fast paths give what the loop run from the first byte gives |
| Varints.VarintRoundTripIff | src/lib/crash/native-protocol.ts:80-109 | at any offset of any buffer a written number is read back if and only if it is below 2^56 |
| NativeProtobuf.EncodeProtobuf | src/lib/crash/native-protocol.ts:149-163 | the loop emits the encodings of the fields in order |
| NativeProtobuf.DecodeProtobuf | src/lib/crash/native-protocol.ts:111-136 | the loop computes the last-wins map of the fields met before the end, a truncated string or an unknown wire type |
| NativeProtobuf.DecodeEncode | src/lib/crash/native-protocol.ts:111-163 | for every list of fields with numbers below 2^28 and values or lengths below 2^56, decoding the encoding yields the list and its last-wins map |
| NativeProtobuf.DecodedIsSmall | src/lib/crash/native-protocol.ts:80-136 | whatever the bytes, decoded field numbers are below 2^28 and numbers below 2^56 |
| NativeProtobuf.NumberSurvivesIff | src/lib/crash/native-protocol.ts:111-163 | a single numeric field survives if and only if its number is below 2^28 and its value in [0, 2^56) |
| ProtobufReader.Reader.ReadVarint | src/lib/crash/transport/bcgame-crash-transport.ts:414-426 | at most five groups, modulo 2^32 |
| ProtobufReader.Reader.ReadInt64 | src/lib/crash/transport/bcgame-crash-transport.ts:439-452 | all groups are consumed, those past bit 32 ignored |
| ProtobufReader.Reader.ReadTag | src/lib/crash/transport/bcgame-crash-transport.ts:429-433 | nothing at the end, else field number and wire type of a varint |
| ProtobufReader.Reader.ReadString | src/lib/crash/transport/bcgame-crash-transport.ts:458-463 | the length-prefixed bytes, clamped to the buffer; the position moves by the announced length |
| ProtobufReader.Reader.SkipField | src/lib/crash/transport/bcgame-crash-transport.ts:481-489 | how far each wire type skips, and that any other is an error |
| ProtobufReader.DecodeEnd | src/lib/crash/transport/bcgame-crash-transport.ts:570-585 | the loop over the tags computes round id, hundredths and hash, or fails on an unknown wire type |
| ProtobufReader.ReadsModuloWord | src/lib/crash/transport/bcgame-crash-transport.ts:414-452 | a written varint is read back modulo 2^32, by the short reader if it fits in 35 bits |
| ProtobufReader.ReaderReadsFields | src/lib/crash/transport/bcgame-crash-transport.ts:570-585 | on every encoded field list with varints below 2^32 the reader stores each field in turn |
| ProtobufReader.DecodersAgree | src/lib/crash/native-protocol.ts:175-200 | on every such `ed` payload both decoders recover the same round id, hundredths and hash |
| ProtobufReader.TextualRoundIdNeverAgrees | src/lib/crash/native-protocol.ts:187-193 | when the last round id of a payload is a string the two never agree |
| ProtobufReader.RoundIdAgreesIff | src/lib/crash/transport/bcgame-crash-transport.ts:439-452 | for a payload holding a round id alone the two agree if and only if the id is below 2^32 |
| ProtobufBytes.AnyBytesAreRead | src/lib/crash/transport/bcgame-crash-transport.ts:414-452 | on any bytes, truncated or overlong: which bytes each varint reader consumes and that it answers with their bits modulo 2^32, missing bytes being 0 |
| ProtobufBytes.ForeignFieldsChangeNothing | src/lib/crash/transport/bcgame-crash-transport.ts:481-585 | fields with other numbers, of all four wire types that can be skipped and wherever they stand, leave the decoded end as it is |
| ProtobufBytes.OtherWiresAreErrors | src/lib/crash/transport/bcgame-crash-transport.ts:481-489 | a tag with any other wire type fails, whatever follows |
| WireFrames.EncodeConnect | src/lib/crash/native-protocol.ts:16-25 | the buffer filled in place is the connect frame |
| WireFrames.EncodeJoin | src/lib/crash/native-protocol.ts:27-39 | the buffer filled in place is the join frame with an ack id of 0 |
| WireFrames.EncodeEvent | src/lib/crash/native-protocol.ts:41-55 | the buffer filled in place is the event frame |
| WireFrames.EncodeBinaryPacket | src/lib/crash/transport/bcgame-crash-transport.ts:345-391 | the buffer filled in place is type, optional big-endian ack id, both names and payload; an ack id of 2^32 or more is the range error |
| WireFrames.BinaryRoundTrip | src/lib/crash/transport/bcgame-crash-transport.ts:300-391 | the transport reads back every packet it can write with names up to 255 bytes, ack id included, binary types reported as plain ones |
| WireFrames.BinaryTypesReadAsPlain | src/lib/crash/transport/bcgame-crash-transport.ts:334-336 | types 5 and 6 are read exactly like types 2 and 3 with the same contents, every other type as it is |
| WireFrames.MarkerIsStripped | src/lib/crash/transport/bcgame-crash-transport.ts:304-307 | a frame reads the same with either marker byte, and without one where its type cannot be taken for a marker |
| WireFrames.AckIdRoundTrip | src/lib/crash/transport/bcgame-crash-transport.ts:315-320 | ack ids below 2^32 are written big-endian and read back |
| WireFrames.EncodersAgree | src/lib/crash/transport/bcgame-crash-transport.ts:345-391 | the transport writes byte for byte the native connect and join frames |
| WireFrames.EventRoundTrip | src/lib/crash/native-protocol.ts:41-77 | both decoders recover namespace, event and payload for names up to 255 bytes |
| WireFrames.JoinRoundTrip | src/lib/crash/native-protocol.ts:27-77 | both decoders recover namespace and room, the transport also ack id 0 |
| WireFrames.ConnectRoundTrip | src/lib/crash/native-protocol.ts:16-77 | both decoders recover the namespace of a connect frame |
| WireFrames.PacketsAgree | src/lib/crash/transport/bcgame-crash-transport.ts:300-339 | on every buffer the two decoders agree on whatever the native parser accepts |
| WireFrames.EventSurvivesIff | src/lib/crash/native-protocol.ts:41-77 | an event frame parses back to what was encoded if and only if both names are shorter than 256 bytes |
| PeerNegotiation.PeerSlot.NegotiationNeeded | src/lib/multiplayer/p2p.ts:291-301 | a new offer becomes the local description and is handed to the relay while `makingOffer` is set |
| PeerNegotiation.PeerSlot.OfferPosted | src/lib/multiplayer/p2p.ts:298-300 | the returning POST clears `makingOffer` |
| PeerNegotiation.PeerSlot.OnSignal | src/lib/multiplayer/p2p.ts:377-403 | an impolite side ignores a colliding offer, any other offer is taken with implicit rollback, an answer settles the pending offer or is swallowed |
| PeerNegotiation.PeerSlot.SendAnswer | src/lib/multiplayer/p2p.ts:407-410 | the answer to the taken offer makes the side stable and is handed to the relay |
| PeerNegotiation.StepKeepsConsistent | src/lib/multiplayer/p2p.ts:361-445 | every step, replacing a connection included unless its offer is pending, keeps the pair in one of the listed joint states, and strands it only when an offer meets a stable impolite side that is still posting |
| PeerNegotiation.QuietPairsAgree | src/lib/multiplayer/p2p.ts:361-431 | in every run in which no connection is replaced with its offer pending, when no signal is in flight the impolite side is stable, and both are stable on the same offer and answer if and only if the polite side has no offer pending |
| PeerNegotiation.QuietMomentsAgreeIff | src/lib/multiplayer/p2p.ts:291-431 | such a run has agreed whenever it falls quiet if and only if no offer reaches a stable impolite side whose last POST has not returned |
| PeerNegotiation.LatePostStrandsThePair | src/lib/multiplayer/p2p.ts:291-385 | a concrete run of six steps that falls quiet without convergence |
| PeerNegotiation.GlareGoesToTheImpolite | src/lib/multiplayer/p2p.ts:377-411 | from any glare, every run without further offers or rebuilds that falls quiet has both sides agreed on the offer of the impolite side |
| PeerNegotiation.ImpoliteOfferPrevails | src/lib/multiplayer/p2p.ts:377-411 | every glare is such a situation, and so is a stranded pair once the impolite side offers again |
| PeerConvergence.ConvergesIff | src/lib/multiplayer/p2p.ts:291-531 | over every run with offers, glares, refused offers and rebuilds: at each moment all that can happen without new offers, rebuilds or late drops ends in agreement, if and only if the run drops no offer late and replaces no connection whose offer is pending |
| PeerConvergence.PendingRebuildSplits | src/lib/multiplayer/p2p.ts:379-531 | after a rebuild with an offer pending every run without further offers or rebuilds that falls quiet leaves both sides stable on different sessions |
| PeerConvergence.PendingRebuildRun | src/lib/multiplayer/p2p.ts:379-531 | a concrete run of eight steps that ends with both sides stable on different sessions |
| PeerConvergence.AnswersFindTheirOfferIff | src/lib/multiplayer/p2p.ts:379-531 | at each moment of a run and in all that can follow without new offers an answer reaches a side that still has the very offer it answers, if and only if no connection was replaced with its offer pending |
| PeerConvergence.DrainsToQuiet | src/lib/multiplayer/p2p.ts:361-445 | what is under way can always be handled to the end without a late drop once the POST of the impolite side is back |
| PeerConvergence.PostsAnswerOffers | src/lib/multiplayer/p2p.ts:291-301 | while connections are kept, `makingOffer` is set exactly when the last of the offers and returned POSTs of a side was an offer |
| PeerNegotiation.ExchangeEnds | src/lib/multiplayer/p2p.ts:361-445 | handling signals strictly reduces the remaining work, which is 0 if and only if the pair is quiet, and a pair that is not quiet can go on |
| P2PRoom.P2PRoom.ReconcileRoster | src/lib/multiplayer/p2p.ts:223-242 | listed peers are added in order or renamed, unlisted ones dropped, never a slot for oneself |
| RoomMembership.RosterIsFollowed | src/lib/multiplayer/p2p.ts:223-242 | after a roster exactly the listed peers other than oneself have a slot, each under its last listed name; a known one keeps everything else, a new one is fresh with no attempts |
| RoomMembership.RosterKeepsTheOrder | src/lib/multiplayer/p2p.ts:223-242 | the remaining peers keep their order and the new ones follow in order of first listing |
| RoomMembership.NewConnectionsGoLast | src/lib/multiplayer/p2p.ts:223-242 | a connection made anew takes its place at the end, all others keep their order |
| RoomMembership.RoomFollowsTheLastRoster | src/lib/multiplayer/p2p.ts:223-242 | after every run of the room a peer other than oneself is in it if and only if the last roster lists it |
| RoomMembership.RoomStartsEmpty | src/lib/multiplayer/p2p.ts:223-242 | before the first roster nobody is in the room |
| P2PRoom.P2PRoom.CheckPair | src/lib/multiplayer/p2p.ts:504-535 | one turn of the watchdog: refresh the live state, count a stall, rebuild as dialer, give up after three |
| P2PRoom.P2PRoom.Watchdog | src/lib/multiplayer/p2p.ts:500-536 | the loop over a map that it changes visits rebuilt pairs again, ends, and amounts to checking every pair once |
| P2PRoom.P2PRoom.OnConnectionStateChange | src/lib/multiplayer/p2p.ts:271-280 | progress restarts the stall clock, a connection resets the attempts and the terminal flag |
| P2PRoom.P2PRoom.AbsorbOffer | src/lib/multiplayer/p2p.ts:392-401 | the pair is recreated once for a failing offer and keeps its attempts |
| P2PRoom.CheckedTwice | src/lib/multiplayer/p2p.ts:503-535 | a second visit in the same round changes nothing and rebuilds nothing |
| P2PRoom.PairsAreIndependent | src/lib/multiplayer/p2p.ts:223-242 | in any run of the room a pair that stays in the roster goes through its own events and the watchdog's, nothing else |
| P2PRoom.NeverConnectedIsRebuiltAtMostThrice | src/lib/multiplayer/p2p.ts:500-536 | a new pair that stays in the roster and never connects is rebuilt at most 3 times, exactly as often as its dialer counts, never by the receiver |
| P2PRoom.RebuildsAreBounded | src/lib/multiplayer/p2p.ts:276-279 | rebuilds are at most the attempts left plus three for every time the pair connected |
| P2PRoom.SilentPairIsRebuiltThreeTimes | src/lib/multiplayer/p2p.ts:515-531 | a pair in which nothing happens is rebuilt at each stalled visit until the third and terminal from the fourth on |
| P2PRoom.TerminalStays | src/lib/multiplayer/p2p.ts:514-520 | a terminal pair is never rebuilt until it connects or absorbs an offer |
| P2PRoom.ConnectionStartsOver | src/lib/multiplayer/p2p.ts:271-280 | whatever came before, a connected pair that is then lost for good is rebuilt three more times and given up |
| P2PRoom.LivelyPairIsLeftAlone | src/lib/multiplayer/p2p.ts:504-516 | a pair whose visits all come within ten seconds of its last progress is never rebuilt, charged or given up |
| P2PRoom.OverduePairIsActedOn | src/lib/multiplayer/p2p.ts:515-535 | a pair without progress for more than ten seconds is charged with an attempt at the next visit and rebuilt by the dialer, or given up after three |
| RoomMembership.GreaterPeerRebuilds | src/lib/multiplayer/p2p.ts:521-533 | of two peers that hold each other the one with the greater id rebuilds the stalled pair and the other waits |
| BacktestEngine.Run | src/lib/prediction/backtesting/backtest-engine.ts:56-125 | the loop yields the ledger and decision list of all rounds after the first thirty, for any predictor |
| BacktestEngine.PlayRound | src/lib/prediction/backtesting/backtest-engine.ts:57-124 | one iteration: day change, risk rules, booking |
| BacktestRules.DecisionsFollowTheRules | src/lib/prediction/backtesting/backtest-engine.ts:57-194 | in every run a round is entered if and only if its signal is live and reaches both thresholds, the entries of its day are below the cap, the drawdown is below the limit and the balance covers the stake; each reason names the first of these that fails; wins, losses and their pnl |
| BacktestRules.BetterSignalsStillEnter | src/lib/prediction/backtesting/backtest-engine.ts:175-180 | raising probability or confidence of one signal never turns the entry of its round into a skip |
| BacktestRules.OutcomesAreCounted | src/lib/prediction/backtesting/backtest-engine.ts:83-112 | over every run the counters are the numbers of wins, losses and skips |
| BacktestRules.LargestPercentIsKept | src/lib/prediction/backtesting/backtest-engine.ts:105-107 | over every run the largest drawdown in percent is the maximum over all accounts so far |
| BacktestRules.DecisionsShowTheAccount | src/lib/prediction/backtesting/backtest-engine.ts:113-125 | every decision shows the summed pnl and the drawdown after it |
| BacktestEngine.BooksBalance | src/lib/prediction/backtesting/backtest-engine.ts:86-107 | for every round list and predictor: cumulative pnl is the sum of the decisions, equity is the opening balance plus it, peak and drawdown are those of the prefixes |
| BacktestEngine.PeakIsPrefixMaximum | src/lib/prediction/backtesting/backtest-engine.ts:102 | the peak is the maximum of all prefix equities |
| BacktestEngine.DropIsPrefixMaximum | src/lib/prediction/backtesting/backtest-engine.ts:103-104 | the drawdown is the maximum of all drops below the running peak |
| BacktestEngine.EquityStaysNonNegative | src/lib/prediction/backtesting/backtest-engine.ts:86-101 | for a balance that is not negative, equity stays so over every run, provided a win returns at least nothing, or a win gains, or no entry is ever admitted |
| BacktestEngine.AWinOverdraws | src/lib/prediction/backtesting/backtest-engine.ts:86-101 | for every other configuration a run of one win from a balance of the stake, or of 0, ends below zero |
| BacktestEngine.AlwaysSolventIff | src/lib/prediction/backtesting/backtest-engine.ts:167-194 | equity is never negative over all rounds, predictors and balances from 0 up, if and only if stake times cash-out or stake times (cash-out minus 1) is not negative, or a limit admits no entry |
| BacktestEngine.DailyCapHolds | src/lib/prediction/backtesting/backtest-engine.ts:61-65 | on any stretch of rounds of one day at most `maxDailyEntries` entries are made |
| BacktestEngine.DailyCapIff | src/lib/prediction/backtesting/backtest-engine.ts:58-87 | for given rounds and cap, no run under any predictor, balance and configuration exceeds the cap on a day if and only if the cap is 0 or less, or no other day stands between rounds of the day, or the day has no more rounds than the cap |
| BacktestEngine.ReturningDayPassesTheCap | src/lib/prediction/backtesting/backtest-engine.ts:61-65 | after any thirty rounds of history, a round of one day, one of another and one of the first again: with a cap of one the first day has two entries |
| BacktestEngine.DrawdownLocksOut | src/lib/prediction/backtesting/backtest-engine.ts:184-189 | once the drawdown limit is reached no later round is entered and the account stays as it is |
| BacktestEngine.DrawdownIsBounded | src/lib/prediction/backtesting/backtest-engine.ts:102-107 | over every run the largest drawdown stays within the limit at the peak plus one loss, when the stake is not negative, the cash-out at most 1, the balance positive, or no entry admitted |
| BacktestEngine.AlwaysWithinLimitIff | src/lib/prediction/backtesting/backtest-engine.ts:184-192 | that bound holds over all runs from a balance if and only if one of these conditions holds |
| BacktestEngine.WorstLossIsTheStakeIff | src/lib/prediction/backtesting/backtest-engine.ts:91-99 | the worse outcome of an entry costs exactly the stake if and only if stake times cash-out is not negative |
| OnlineState.AdaptWeights | src/lib/prediction/acie/online-state.ts:191-207 | the two loops compute the clamped weights divided by their sum |
| OnlineState.ApplyOnlineUpdate | src/lib/prediction/acie/online-state.ts:145-207 | one update of count, streaks, bucket, windows and weights |
| OnlineState.AnyUpdateNormalises | src/lib/prediction/acie/online-state.ts:189-207 | from any weights an update yields weights that sum to 1, each in [1/33, 8/17] |
| OnlineState.WeightsStayBalanced | src/lib/prediction/acie/online-state.ts:189-207 | over runs from equal weights the floor 0.06 survives normalisation and no weight exceeds 4/11 |
| OnlineState.CeilingIsPassedIff | src/lib/prediction/acie/online-state.ts:199-207 | after an update a weight is above the ceiling 0.32 if and only if 17 times its clamped value exceeds 8 times the sum of the others |
| OnlineState.SomeRunPassesTheCeiling | src/lib/prediction/acie/online-state.ts:186-207 | there is a run from the initial state, ten rounds in which one model is right and the others err, that ends with a weight above 0.32 |
| OnlineState.BetterModelsStayAhead | src/lib/prediction/acie/online-state.ts:196-199 | a model with at least the weight and the score of another never falls behind it |
| OnlineState.RunsFromInitialAreHealthy | src/lib/prediction/acie/online-state.ts:82-207 | every run from the initial state keeps that invariant |
| OnlineState.RunsStayHealthy | src/lib/prediction/acie/online-state.ts:116-207 | over every run: balanced weights, bucket counts sum to the observation count, sums inside their bins, the short error window is a suffix of the long one, one streak at a time |
| OnlineHistory.BucketsHoldTheirUpdates | src/lib/prediction/acie/online-state.ts:168-174 | in every run from the initial state bucket k has counted the updates whose cut prediction falls in the k-th tenth, and summed their predictions and hits |
| OnlineHistory.WindowsHoldTheLastErrors | src/lib/prediction/acie/online-state.ts:176-184 | in every run from the initial state both windows are the last squared errors of the run, in order |
| OnlineHistory.WeightsFollowTheScores | src/lib/prediction/acie/online-state.ts:189-207 | after an update two weights stand to each other as the old ones times 0.88 + 0.12 score, cut to [0.06, 0.32] |
| OnlineHistory.WeightsAddUp | src/lib/prediction/acie/online-state.ts:203-207 | and all of them add up to one |
| AcieEngine.ACIEEngine.IngestCrash | src/lib/prediction/acie/engine.ts:335-404 | duplicate, rejected or recorded; window, loss counter, id set and learner after it |
| AcieEngine.ScanStreaks | src/lib/prediction/acie/tpl.ts:42-52 | the backward scan finds the lengths of the trailing runs below and above the target |
| AcieEngine.CounterAgreesWithRescan | src/lib/prediction/acie/engine.ts:383-389 | after any list of crashes the history is the bounded suffix of the recorded points, the counter is their full trailing streak, and cut to the window it equals the rescan |
| AcieEngine.StreaksAgree | src/lib/prediction/acie/engine.ts:394-403 | with learning always on the learner's own streak counter equals the engine's after every run |
| AcieEngine.StreakStep | src/lib/prediction/acie/engine.ts:394-403 | one crash keeps the two counters equal if and only if it is not recorded, is learnt, or changes neither |
| AcieEngine.AboveStreaksAgree | src/lib/prediction/acie/engine.ts:394-403 | with learning always on the streak of rounds at or above the target is that of the recorded points |
| AcieEngine.CrashesAreJudged | src/lib/prediction/acie/engine.ts:335-389 | after every run: a crash is a duplicate if and only if its id is among the last 5000 remembered, otherwise recorded if and only if its point is a positive number, and what a recorded one does to history and counter |
| AcieEngine.IdsDoNotRepeat | src/lib/prediction/acie/engine.ts:340-362 | over every run the id set is the last 5000 remembered ids and no id is remembered twice within them |
| AcieEngine.RejectionUsesUpTheId | src/lib/prediction/acie/engine.ts:357-366 | after a rejected crash the corrected report of the same round is dropped as a duplicate |
| AcieEngine.ACIEEngine.SeedHistory | src/lib/prediction/acie/engine.ts:120-126 | the last rounds are ingested in order until one is rejected |
| AcieEngine.ACIEEngine.ImportSnapshot | src/lib/prediction/acie/engine.ts:145-165 | the points are replayed under ids of their own, then counter and learner are overwritten |
| AcieSnapshot.SnapshotRoundTrip | src/lib/prediction/acie/engine.ts:133-165 | after any run, exporting and importing into a fresh engine restores history and full loss counter |
| AcieSnapshot.ImportAppendsTheReplayed | src/lib/prediction/acie/engine.ts:145-165 | into any engine an import appends the points that are not taken for duplicates, cut to the window, and takes over the loss counter |
| AcieSnapshot.EveryPointIsReplayedIff | src/lib/prediction/acie/engine.ts:150-158 | every point is replayed if and only if none of the ids used for the replay is still remembered at its turn |
| AcieSnapshot.RestoresTheHistoryIff | src/lib/prediction/acie/engine.ts:145-165 | where every point is replayed, the import restores the history if and only if the engine had none or the snapshot fills the window |
| AcieSnapshot.EverySnapshotIsRestoredIff | src/lib/prediction/acie/engine.ts:145-165 | an engine restores the history of every snapshot of n points if and only if none of the n ids of the replay survives until its turn and the engine has no history or n fills the window |
| AcieSnapshot.ImportedCounterAgreesIff | src/lib/prediction/acie/engine.ts:145-165 | where every point is replayed, the imported loss counter is what a rescan of the imported history finds if and only if the snapshot fills the window, or holds a round at or above the target, or the old history does not end below it |
| AcieSnapshot.UnknownPointsAreReplayed | src/lib/prediction/acie/engine.ts:339-362 | while the id set has room, exactly the points with ids it does not hold are replayed |
| AcieSnapshot.SecondImportKeepsTheOldHistory | src/lib/prediction/acie/engine.ts:150-163 | a second snapshot that is not longer replays nothing; only its counter is restored |
| RoundValidator.Validator.Validate | src/lib/realtime/validator.ts:27-79 | verdict and new state for every event, in the order of the checks |
| RoundValidator.MissedRoundsTelescope | src/lib/realtime/validator.ts:51-59 | over every run the missed rounds plus the advancing ends after the first equal newest minus first accepted id, and the newest end is the maximum accepted id |
| RoundValidator.MaxIdIsMaximum | src/lib/realtime/validator.ts:58 | the maximum used in the law is one of the ids and not below any of them |
| RoundValidator.NoRepeatWithinMemory | src/lib/realtime/validator.ts:45-65 | over every run `seen` holds at most 20000 keys, a suffix of the acceptances, and no key is accepted twice within 15001 of them |
| RoundValidator.EveryEventIsCounted | src/lib/realtime/validator.ts:27-72 | accepted, duplicate, stale and invalid add up to the number of events |
| RoundValidator.EventsAreJudged | src/lib/realtime/validator.ts:27-72 | after every run: an event is invalid if and only if it lacks the shape of its phase, stale if and only if it is a well-shaped end that comes more than 90 seconds late; a key among the last 15001 acceptances makes a duplicate, one never accepted does not; an accepted end counts the ids between it and the largest accepted one |
| RoundValidator.Validator.Hydrate | src/lib/realtime/validator.ts:19-25 | the ends of known numeric rounds are marked as seen and the newest end becomes the maximum of all ids that convert to a number, whatever it was |
| RoundValidator.HydrateLowersIff | src/lib/realtime/validator.ts:23-24 | whatever conversion of texts to numbers: hydration lowers the newest end if and only if some known id converts and all that do are older |
| RoundValidator.HydrationMarksTheEnds | src/lib/realtime/validator.ts:20-22 | hydration adds exactly the ends of the numeric known ids, each once, behind the keys that were there |
| RoundValidator.HydratedRoundsAreKnown | src/lib/realtime/validator.ts:20-22 | the end of a hydrated round is never accepted |
| RoundValidator.MissedRoundsTelescopeFrom | src/lib/realtime/validator.ts:51-59 | from any state with a newest end, hydrated or not, newly missed rounds plus advances equal the distance the newest end moves |
| HotCache.RecentRoundCache.Get | src/lib/observability/performance/hot-cache.ts:43-50 | a hit returns the entry and moves it to the recent end, a miss changes nothing |
| HotCache.RecentRoundCache.Set | src/lib/observability/performance/hot-cache.ts:52-62 | insert at the recent end, evict the oldest beyond the bound |
| HotCache.RecentRoundCache.AddMany | src/lib/observability/performance/hot-cache.ts:65-77 | only missing ids are inserted, and they are counted |
| HotCache.CacheHoldsTheMostRecent | src/lib/observability/performance/hot-cache.ts:43-96 | after any operations the cache holds exactly the ids touched last, in order of their last touch |
| HotCache.EvictionKeepsTheMostRecent | src/lib/observability/performance/hot-cache.ts:91-97 | evicting as it goes keeps the same ids as cutting the whole recency list at the end |
| HotCache.EntriesAreTheLatest | src/lib/observability/performance/hot-cache.ts:52-77 | after any operations the entry of a cached id is the one stored for it last |
| HotCache.AdditionsAreInsertions | src/lib/observability/performance/hot-cache.ts:65-77 | the reported number of additions is that of the ids inserted |
| Ingest.Ingestor.Insert | src/lib/crash/ingest.ts:79-218 | known rounds and bad dates are left out, the multi-row statement or the fallback writes, and everything prepared is cached |
| Ingest.Ingestor.InsertBatch | src/lib/crash/ingest.ts:119-154 | insert-if-absent of all rows; reported is every prepared round whose id was new |
| Ingest.Ingestor.InsertRows | src/lib/crash/ingest.ts:164-197 | row by row, a refused row is skipped |
| Ingest.CacheIsTransparent | src/lib/crash/ingest.ts:85-197 | with every cached id stored, a call leaves the table and the report that it would without a cache, whatever the database refuses |
| Ingest.CallsStoreTheFirstDated | src/lib/crash/ingest.ts:85-197 | behind a covered cache a call stores of every new id the first round with a usable date, unless the row is refused, and changes no other row |
| Ingest.CoverageIsKeptIff | src/lib/crash/ingest.ts:191-206 | after a call every cached id is stored again if and only if the database refuses none of the last insertions into the cache, computed from the recency order and the rounds before the call |
| Ingest.SmallBatchKeepsCoverageIff | src/lib/crash/ingest.ts:191-206 | for a batch that fits in the cache: if and only if none of its prepared rounds is refused |
| Ingest.TransparentIffCovered | src/lib/crash/ingest.ts:85-197 | no call can be told from one without a cache if and only if every cached id is stored |
| Ingest.RunsAreTransparentIff | src/lib/crash/ingest.ts:79-218 | throughout any run, whatever is evicted, the cache cannot be noticed if and only if no call retains a refused round |
| Ingest.RunsAgree | src/lib/crash/ingest.ts:79-218 | any run in which no call retains a refused round leaves the same table and reports the same rounds as insert-if-absent without the cache |
| Ingest.RefusedRoundIsLost | src/lib/crash/ingest.ts:191-206 | a round refused once is cached, so a later call leaves it out while insert-if-absent would store it |
| Ingest.ReportIsTheGrowthIff | src/lib/crash/ingest.ts:126-195 | the report is exactly the rows added, each once and as stored, if and only if the fallback ran or every id that occurs twice was stored before |
| Ingest.StoredRowsStay | src/lib/crash/ingest.ts:126-180 | no stored row is ever changed |
| Ingest.RepeatedIdIsReportedTwice | src/lib/crash/ingest.ts:140-153 | two rounds with one new id are stored once and reported twice by the multi-row path, once by the fallback |
| Decimals.DecimalReadsBack | src/lib/crash/export.ts:54-61 | a printed integer has a sign exactly when negative and a numeral without leading zeros that reads back |
| Csv.PrintedRowsReadBack | src/lib/crash/export.ts:54-87 | a reader following section 2 of RFC 4180, items 5 to 7, recovers the text of every cell of printed rows |
| Csv.PrintAlikeIff | src/lib/crash/export.ts:71-87 | two tables print alike if and only if their cells have the same texts |
| Csv.CellsPrintAlikeIff | src/lib/crash/export.ts:54-61 | two cells print alike if and only if they are equal or one is absent and the other empty |
| Export.RenderCsvRows | src/lib/crash/export.ts:71-87 | the appending loop renders the rows line by line |
| Export.RenderJsonRows | src/lib/crash/export.ts:91-109 | the records of the rows joined by commas |
| Export.GenerateExportChunks | src/lib/crash/export.ts:133-165 | the generator ends for every batch size and emits header, one chunk a page, footer; it fails if and only if the row count differs from a positive expected count |
| Export.ExportIsOneRendering | src/lib/crash/export.ts:133-178 | the concatenated chunks are header, all streamed rows rendered at once, footer, for CSV and JSON |
| Export.NothingIsLostOrRepeated | src/lib/crash/export.ts:146-158 | whatever rows are committed or deleted between pages, streamed ids rise strictly and every row with a positive id that all queries see is streamed |
| Export.StillTableIsStreamedWhole | src/lib/crash/export.ts:143-158 | on an unchanging table the stream is every row with a positive id in id order, whatever the batch size |
| Export.ExportIsCompleteIff | src/lib/crash/export.ts:141-148 | the export of an unchanging table is complete if and only if it is empty or the batch size is positive and no id is below 1 |
| Export.ExportedCsvReadsBack | src/lib/crash/export.ts:111-113 | an exported CSV file reads back as the column names and the cell texts of the streamed rows |
| ExportText.CsvFileReadsBack | src/lib/crash/export.ts:42-87 | the whole CSV file reads back as the column names and one record a streamed row with every field under its own name |
| ExportText.JsonFileText | src/lib/crash/export.ts:115-165 | the whole JSON file is one object with the declared count and the joined records of all streamed rows in its list |
| ExportText.JsonListReadsBack | src/lib/crash/export.ts:91-109 | for any page size and records that are closed JSON texts, the list of the JSON file reads back as the records of the streamed rows, in order |

## Left out

Stated weaker than the source, or with part of it as a parameter:

- CalibrationState.CalibrationState.Observe: the named regimes in the map are values, only the global calibrator is an object with its array ring; the logistic calibrators are not run.
- CalibrationState.CalibrationState.Refit: likewise, the named regimes are refitted as values.
- CalibrationState.RegimeCalibrator.FitOne: the logistic fit is left out, and the isotonic fit cannot throw.
- CalibrationState.WarmCalibrationIsBounded: the answers of the logistic calibrators are parameters, since they rest on floating-point exponentials.
- RegimeSchedule.CalibrationOrder: likewise; for rings of at most 2,000,000 observations, up to which the fit is determined.
- CalibrationState.RegimeCalibrator.Record: the logarithmic loss of an observation is read from an arbitrary table.
- OnlineState.ApplyOnlineUpdate: the model scores are given as numbers in (0, 1] instead of being computed by `exp`; the exponential averages, the drift record and the regime duration are left out.
- AcieEngine.ACIEEngine.IngestCrash: the outcome learner, the pending context, the evidence flag and the decision for the next round are left out; a history bound of 0 is excluded.
- AcieEngine.ACIEEngine.SeedHistory: the learner's updates while seeding and the decision at the end are left out; a snapshot overwrites the former.
- AcieEngine.ACIEEngine.ImportSnapshot: the three optional parts of a snapshot are always present.
- AcieSnapshot.EverySnapshotIsRestoredIff: for snapshots of positive points, the only ones an engine exports, and engines within their own bounds.
- Export.RenderJsonRows: the JSON text of a single row is given with the row.
- Varints.ReadVarintAt: sums are exact; the source rounds a number above 2^53 that no double holds, which can come off the wire but is never written.
- NativeProtobuf.DecodeProtobuf: the same holds for its numbers; strings are their bytes.
- ProtobufReader.DecodersAgree: the round id is compared as a number, not as the decimal string of the payload, and `endTime` is left out; payloads whose id, hundredths or hash has the other wire type are not covered, since the second reader then takes string bytes for fields.
- BacktestEngine.Run: timestamps are given as their day and freshness as a flag of the signal; the summary metrics are left out.
- PeerNegotiation.PeerSlot.OnSignal: applying a description cannot fail; an offer that is refused and taken by a new connection is a step of the pair and an operation of P2PRoom.
- PeerConvergence.ConvergesIff: the relay loses nothing, one peer handles signals one at a time, and ICE candidates are left out; a rebuild and its offer are one step; a signal given up after three attempts, a description that a new connection refuses too, and a peer that one side drops from its roster and lists again are not modelled.
- P2PRoom.P2PRoom.Watchdog: one clock reading serves a whole round, and a replaced slot is gone, so late events of a closed connection are not modelled.
- RoundValidator.Validator.Validate: ids are exact integers, and lag and processing times are left out.
- RoundValidator.Validator.Hydrate: the conversion of a text to a number is a parameter with integer values; texts that convert to fractions are not modelled.
- RoundValidator.NoRepeatWithinMemory: holds for runs without hydration, which adds keys without a bound.
- RoundValidator.EventsAreJudged: likewise.
- HotCache.RecentRoundCache.Set: the `seenAt` time of an entry is left out.
- Ingest.Ingestor.Insert: the daily aggregates, the columns other than id, multiplier and crash time, and rows deleted by others are left out.
- Export.GenerateExportChunks: the JSON text of a row is given with the row, and ids are exact.

Not modelled:

- `compareToConstantBase`, `listRegimeMetrics` and the other read-only summaries, which would only add easy members.
- `decodeProgressElapsed`, the other event decoders and acknowledgements of the transport, sockets, TLS and signing.
- Kelly sizing, regime clustering, the evidence and forecasting engines, spectral features.
- React components, routes, sessions, the service worker, pools and loggers.
