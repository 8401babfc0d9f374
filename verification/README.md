# xAuby: a verified model

This project models the parts of xAuby that hold state across candles, crashes, workers
or processes, and proves what those parts are for. It has three groups.

**The shadow evaluator's durable log.** `Json` is the compact, sorted-key, ASCII-only
encoder and a decoder (RFC 8259, sections 4, 6 and 7), and `Dictionaries` what loading makes
of objects: distinct keys whose order does not matter. `CandleStore` is the candle table
with its pending, history and regime queries and the bounded snapshot of it. `EventLog` is
the hash-chained `events.jsonl`: framing, the chain check, tail repair; `EventLogLaws` says
which files it accepts. `ShadowEvaluator` is the worker as an object with a file, with
methods proved against a functional specification. `ShadowTheorems`, `ShadowRuns` and
`ShadowRecovery` follow one append and one run; `ShadowSchedules` states what holds over every schedule of runs, catch-up batches and
crashes, whatever stores the runs see, `ShadowHistories` and `ShadowFolds` what holds when
they are views of one growing history, and `ShadowDivergence` shows where that ends;
`ShadowCounts`, `ShadowAccounts` and `ShadowFigures` say what the counters, ledgers and
figures in the log mean. A crash keeps any prefix of the bytes of the append that was under
way. The digest is an arbitrary function; where it has to be collision-free a lemma says so.

**The simulators.** `RoundTrips` specifies the zone-driven long/short machine by its list
of round trips, and `TripLaws` tells those by zones and prices alone; `ModeSimulator` and
`LongShortBacktest` are the two programs that run it bar by bar, each an object with the
loop's variables, proved against that specification.
`ShortSimulator` is the short-side simulator with its ratcheting stop. `Portfolio` combines
two equity curves. `Drawdown` is the running drawdown against its definition over all
pairs of points, and is used in every place the loop appears; `Solvency` gives candles on
which the simulated equity cannot become negative. `ShadowStats` is the same for
the figures of one shadow candidate.

**Streaming and merging.** `RegimeSwitch` (the 30-bar confirmation rule), `RegimeStats`
(run lengths, transitions, variance decomposition), `GridShards` with `StableSort` and
`Lexicographic` (sharding, merging and ranking of the parameter grid), `Reconcile` (exchange
positions against tracked ones) and `Deadman` (the alert debouncer).

Money, prices and times of day are exact reals or integers. Rounding is not modelled, except
that the figures of a shadow candidate are rounded when they are stored.

## What the model shows about the code

- A crash that leaves an appended event complete except for its final line feed is read
  as an event by `_load_state` and removed by `_repair_partial_tail`. It is the only cut
  where the two disagree (`CutAppend`). The run that follows continues from the removed
  event. Exactly the schedules in which such a run writes nothing, or loses at least two
  bytes of its first event, leave a log that loads (`LoadsIffSurvived`); after any other
  every later load is refused (`NotSurvived`, `RefusedForever`). That does not depend on
  what the stores hold.
- In a log that loads no candle is there twice or out of order (`AtMostOnce`), and one that
  was passed over by a log whose last line is complete is never evaluated later
  (`SkippedForever`).
- A run takes up the candles behind the last evaluated one without a gap exactly when the
  oldest row it sees reaches back far enough (`ReachIff`). Over the bounded snapshot, which
  the deployed worker reads (`deploy/systemd/xauby-shadow@.service:14`), that means at most
  `max_bars` candles since (`SnapshotInReach`). Whether a forming candle is overwritten
  later (`xauby/database/db.py:485-493`) does not matter for it.
- The log is one fold over the history exactly when every candle was judged on the rows that
  the whole history shows for it (`OneFoldIff`). Besides a closed row that is rewritten, two
  things break that, and then two schedules that evaluate the same candles can end in
  different states (`RunsDiffer`): a regime row that arrives after the candle was evaluated
  (`LateRegimeRow`), and the bounded snapshot itself. A candle that is not the newest row is judged on fewer rows in the snapshot of a table
  longer than `max_bars` than in the live table (`SnapshotSameWindows`), so a candle that is
  caught up later is judged on fewer rows than one evaluated at once (`ShorterSnapshot`).
  That every candle is evaluated exactly once does not depend on it.
- The dead-man switch keeps one alert time across outages. If the first alert of a new
  outage is lost, it is retried only when the last delivered alert, which belongs to an
  earlier outage, is at least the re-alert interval old (`LostAlertIsRetried`,
  `UnreportedOutage`). The script's description promises an alert and then repeats.
- Of its ticks the switch remembers exactly those whose marker it could write
  (`OnlyKeptCount`, `ActionsFollowKept`). If the marker of a recovery is lost, the first
  silent tick of the next outage sends nothing (`LostRecovery`); if that of an alert is
  lost, the next tick sends it again (`RepeatedAlert`). Alerts keep their distance as long
  as their own markers are written (`AlertsAreSpaced`).
- The reconciler looks tracked positions up by normalised symbol, while they are stored
  under the pair's own spelling. A tracked position whose normal form is not a key goes
  unnoticed when the exchange no longer holds it (`MissedPosition`) and is called untracked
  when it does (`TrackedButCalledUntracked`), and only then. Of the spellings the pair
  registry uses these are the ones with a slash, a dash or a colon
  (`RegistrySpellingIsNormal`, `SlashedPair`).
- The single-pass drawdown is the largest relative loss between two points as long as
  equity stays nonnegative (`BoundedDrawdown` gives candles on which it does), and in general
  exactly as long as no negative equity loses more against the smallest positive equity
  before it (`SinglePassIsQuadraticIff`). A long that doubles and a short that is then run
  over break it (`NegativeEquityIsUnderreported`).

## Model

| member | source | states |
|---|---|---|
| JsonProofs.DecodeEncode | xauby/shadow_evaluator.py:42-49 | decoding inverts encoding for every JSON value |
| JsonProofs.EncodePrintable | xauby/shadow_evaluator.py:42-49 | an encoding holds only printable ASCII, so no line break can occur inside an event line |
| JsonProofs.StrictPrefixDoesNotDecode | xauby/shadow_evaluator.py:279-284 | no strict prefix of an encoded object decodes: a torn event is never mistaken for an event |
| JsonProofs.CompactForm | xauby/shadow_evaluator.py:42-49 | lists and objects are written without spaces, with commas between their parts and colons behind the keys |
| JsonProofs.EscapeMeans | xauby/shadow_evaluator.py:42-49 | printable ASCII but the quote and the backslash is written as it is, seven characters by their short escapes, and every other one by its code in four lower-case hexadecimal digits, beyond the basic plane as a surrogate pair |
| JsonProofs.DigitsMean | xauby/shadow_evaluator.py:42-49 | whole numbers are written in decimal digits without a leading zero |
| Dictionaries.SameObject | xauby/shadow_evaluator.py:279-283 | two objects in a text load as the same dictionary if and only if every key has the same last value in both, whatever the order and repetition of the keys |
| Dictionaries.CanonId | xauby/shadow_evaluator.py:42-49 | a dictionary written with sorted keys is read back as itself |
| EventLogProofs.FrameRoundTrip | xauby/shadow_evaluator.py:274-280 | splitting and decoding a framed log gives its events back, one line each |
| EventLogProofs.RepairFrame | xauby/shadow_evaluator.py:316-326 | repair removes exactly the unterminated tail of a log, whatever it holds |
| EventLogProofs.ScanAfterCut | xauby/shadow_evaluator.py:270-349 | for every number of bytes an append left on disk: what the scan makes of the file, and what the repair makes of it |
| EventLogProofs.WrittenEvent | xauby/shadow_evaluator.py:285-301 | an event the worker writes is accepted exactly behind the hash it links to, and its state is loaded back unchanged |
| EventLogProofs.LastHashCommits | xauby/shadow_evaluator.py:292-301 | under a collision-free digest two accepted sequences of events with the same last hash are the same sequence |
| EventLogProofs.FileHashCommits | xauby/shadow_evaluator.py:274-301 | the same for files, whatever the order and repetition of the keys in their lines: two accepted newline-terminated texts with the same last hash hold the same events, line by line |
| EventLogLaws.ScanMeans | xauby/shadow_evaluator.py:274-304 | a file is accepted if and only if every line that counts, the last one not when it is unterminated and does not parse, holds an object of version 1 with the run and spec of the worker, links to the hash of the line before it, carries the hash of the rest of itself, and has a durable state |
| EventLogLaws.LoadMeans | xauby/shadow_evaluator.py:270-314 | and it loads if and only if its last durable state belongs to the run and has its candidates; what is loaded are the fields of that state and the last hash, or the initial state without events |
| EventLogLaws.LineEnds | xauby/shadow_evaluator.py:275 | a line feed, a carriage return, or the two together end a line, and a last line needs no end |
| EventLogLaws.RepairMeans | xauby/shadow_evaluator.py:316-326 | repair keeps exactly the part up to the last line feed, of any file |
| EventLogProofs.UnsignedGet | xauby/shadow_evaluator.py:543-557 | under which key each part of an event is written |
| EventLogProofs.TailGet | xauby/shadow_evaluator.py:543-557 | the same for its identity, its snapshot and its state |
| EventLogProofs.DurableGet | xauby/shadow_evaluator.py:531-542 | and each part of the durable state |
| ShadowEvaluator.Worker.LoadState | xauby/shadow_evaluator.py:270-314 | the scan loop computes the specified load, for lines with keys in any order: chain, identity and candidate checks, and forgiveness only for an unterminated last line |
| ShadowEvaluator.Worker.RepairPartialTail | xauby/shadow_evaluator.py:316-326 | the file is cut back to just behind its last line feed |
| ShadowEvaluator.Worker.WriteAll | xauby/shadow_evaluator.py:333-340 | whatever the write calls return, the file grows by a prefix of the payload, and the result is the number of missing bytes |
| ShadowEvaluator.Worker.AppendEvent | xauby/shadow_evaluator.py:328-349 | repair, sign, write: the new file as a function of the old one and the write calls |
| ShadowEvaluator.Worker.EvaluateCandidates | xauby/shadow_evaluator.py:473-529 | the loop over candidates updates the dictionary as the fold over the candidate list; the statistics of each are computed from its outcome |
| ShadowEvaluator.Worker.EvaluateTimestamp | xauby/shadow_evaluator.py:425-558 | an incomplete snapshot or bad close is refused and leaves the file alone; otherwise the new state and file are those of the specification |
| ShadowEvaluator.Worker.EvaluateSnapshot | xauby/shadow_evaluator.py:531-558 | the event carries the new durable state without the last hash, and the returned state is that state with the event's hash |
| ShadowEvaluator.Worker.RunFrom | xauby/shadow_evaluator.py:588-589 | pending candles are evaluated in order until an error, a kill or an incomplete append |
| ShadowEvaluator.Worker.Run | xauby/shadow_evaluator.py:560-589 | one whole run: load, list the pending candles, evaluate them |
| CandleStore.PendingIsNextSegment | xauby/shadow_evaluator.py:155-160 | after a candle, the pending ones are the next rows without a gap, at most 64, stopping only at the limit, the end or a candle that has not closed |
| CandleStore.PendingInWindow | xauby/shadow_evaluator.py:155-160 | over any stretch of a history, whatever the values in its rows: the pending candles are consecutive candles of the history, those behind the last evaluated one or those from the start of the stretch |
| ShadowRuns.ReachIff | xauby/shadow_evaluator.py:155-160 | the pending candles follow the last evaluated one without a gap if and only if the oldest row in view reaches back to it or has not closed |
| CandleStore.FirstPendingIsNewest | xauby/shadow_evaluator.py:144-154 | the first run takes the newest closed candle; it finds none exactly when none of the newest four has closed |
| CandleStore.HistoryIgnoresLaterRows | xauby/shadow_evaluator.py:162-185 | a history query is the same on two tables that agree on the rows up to its bound |
| CandleStore.HistoryMeans | xauby/shadow_evaluator.py:162-185 | a history query gives the newest rows, at most the limit, of those that open at or before its bound, in order |
| ShadowRuns.ObservedRows | xauby/shadow_evaluator.py:432-443 | a candle is judged on the newest max_bars primary rows up to it and the newest max_bars regime rows that have closed when it closes |
| ShadowRuns.ObjectionMeans | xauby/shadow_evaluator.py:432-446 | it is refused if and only if the store has no row for it or the close of that row is not allowed |
| CandleStore.SnapshotHistory | xauby/shadow_snapshot.py:40-55 | history over the snapshot is a suffix of live history, missing at most as many rows as there are newer candles; when exactly it misses none |
| CandleStore.SnapshotPending | xauby/shadow_snapshot.py:87-98 | pending candles over the snapshot equal the live ones if and only if at most max_bars candles follow the last evaluated one or the first of them has not closed (or there is none yet) |
| ShadowTheorems.AppendHolds | xauby/shadow_evaluator.py:328-349 | a log with a torn tail: an append adds the next event, that event without its line end, or only another torn tail |
| ShadowTheorems.LandedIsSum | xauby/shadow_evaluator.py:333-340 | while every write makes progress, the bytes that reach the file are the sum of what the writes took, up to the whole payload |
| ShadowTheorems.LandedStops | xauby/shadow_evaluator.py:336-338 | a write without progress is the last one |
| ShadowTheorems.RunHolds | xauby/shadow_evaluator.py:588-589 | a run appends a prefix of its pending candles to the reference log, all of them if it finishes; the last may lack its line end |
| ShadowTheorems.RunAfterUnended | xauby/shadow_evaluator.py:316-349 | how a run behind an event without its line end goes: it changes nothing, or the event is replaced by what the run's first append leaves |
| ShadowTheorems.RunStaysBroken | xauby/shadow_evaluator.py:588-589 | behind events that are refused a run can only add to a log that stays refused |
| ShadowRuns.WorkerCoherent | xauby/shadow_evaluator.py:285-301 | every event evaluated from a loaded state is accepted by the load and loads as the new state |
| ShadowRuns.NoLookAhead | xauby/shadow_evaluator.py:432-471 | two stores that agree on primary rows up to t and regime rows closed by then give the same refusal, event and state at t |
| ShadowRuns.RunProgress | xauby/shadow_evaluator.py:560-589 | one run, crashed or not, over any view that reaches back far enough, extends the gap-free evaluated segment; a finished run by exactly the candles that were pending. Nothing is assumed about the values in the rows |
| ShadowHistories.ExactlyOnce | xauby/shadow_evaluator.py:560-589 | after any surviving schedule of runs, batches and crashes whose views reach back far enough, every candle of one gap-free segment has been evaluated once, in order, by a run that had it in its store after it closed; the log loads as that fold |
| ShadowSchedules.LoadsIffSurvived | xauby/shadow_evaluator.py:270-349 | under a collision-free digest, whatever stores the runs see, a schedule from the empty disk leaves a log that loads if and only if it survives: no run that follows an event without its line end completes an event or loses fewer than two bytes of its first one |
| ShadowSchedules.NotSurvived | xauby/shadow_evaluator.py:270-349 | any other schedule ends in a broken hash chain, from any log the worker can leave |
| ShadowSchedules.EachOnce | xauby/shadow_evaluator.py:560-589 | what any surviving schedule leaves, over any stores: a log that loads as the fold over some candles, each evaluated by a run that had it in its store after it closed; no event with its line end is lost again; with positive opening times the candles strictly increase |
| ShadowSchedules.AtMostOnce | xauby/shadow_evaluator.py:560-589 | under a collision-free digest every log that loads, whatever the schedule and the stores, holds strictly increasing candles, each evaluated after it had closed |
| ShadowSchedules.SkippedForever | xauby/shadow_evaluator.py:155-160 | a candle that was passed over by a log with a complete last line is in no log that a surviving schedule makes of it |
| ShadowHistories.FromStartReaches | xauby/shadow_evaluator.py:155-160 | a view of the history from its first row on, as far as it has grown, always reaches back far enough |
| ShadowFolds.SnapshotInReach | xauby/shadow_snapshot.py:40-98 | a snapshot of a live table reaches back if and only if at most max_bars candles follow the last evaluated one, or it is empty, or its oldest row has not closed |
| ShadowSchedules.NoLineEndLostSurvives | xauby/shadow_evaluator.py:328-349 | a schedule in which no append misses exactly its line end survives, however its other appends are cut |
| ShadowRuns.EmptyDisk | xauby/shadow_evaluator.py:271-273 | a missing or empty file is where such a schedule starts |
| ShadowRecovery.CutAppend | xauby/shadow_evaluator.py:270-349 | for every cut of an append the reload gives the state before or after it; load and repair disagree if and only if only the line feed is missing |
| ShadowRecovery.AppendAfterLostEvent | xauby/shadow_evaluator.py:316-342 | after that one cut, for every cut of the next append: the old state again while it is torn, a broken chain once it parses |
| ShadowRecovery.NextHashDiffers | xauby/shadow_evaluator.py:543-557 | under a collision-free digest every evaluation changes the last hash |
| ShadowSchedules.RefusedForever | xauby/shadow_evaluator.py:292-295 | a log that is refused once is left untouched and refused by every later run |
| ShadowFolds.FoldIgnoresClocks | xauby/shadow_evaluator.py:552 | the wall clock stamped into the events changes nothing of the durable state but the hash |
| ShadowFolds.OneFoldIff | xauby/shadow_evaluator.py:432-471 | the log is the one fold over the whole history if and only if no candle was judged on primary or regime rows that look different in hindsight |
| ShadowFolds.ExactlyOnceFold | xauby/shadow_evaluator.py:560-589 | over views that reach back and hold every row, with its final values, once it has closed, a surviving schedule leaves the state of one fold over the history; the forming candle may still change |
| ShadowFolds.BatchIndependence | xauby/shadow_evaluator.py:588-589 | two such schedules that began and ended at the same candles have the same durable state up to the last hash |
| ShadowFolds.SnapshotSameWindows | xauby/shadow_snapshot.py:40-55 | a candle evaluated over the snapshot of a live table is judged on the rows of the whole history if and only if neither of its two windows was cut: the table fits into max_bars rows, or no row is newer than the window, or the window is empty |
| ShadowDivergence.RunsDiffer | xauby/shadow_evaluator.py:432-529 | two first runs that take up the same candle, over any two views of one history, leave different states if and only if they judge it on different rows, for strategies that keep what they were shown |
| ShadowDivergence.LateRegimeRow | xauby/shadow_evaluator.py:438-443 | of any history one regime row arrives after a candle was evaluated: a run before it and one after it, both taking up that candle, leave different states if and only if the row is one of those the candle should have been judged on |
| ShadowDivergence.ShorterSnapshot | xauby/shadow_snapshot.py:40-55 | for every table longer than max_bars, with all closed rows there and final: a run over the snapshot published before the last row and one over the next evaluate the same candle and leave different states |
| ShadowCounts.LogIsGapFree | xauby/shadow_evaluator.py:531-549 | the events' timestamps strictly increase and are exactly consecutive rows of the history |
| ShadowCounts.CountersAgree | xauby/shadow_evaluator.py:508-533 | snapshot_count is the number of events, and each candidate's healthy and failed evaluations add up to it |
| ShadowAccounts.LogStores | xauby/shadow_evaluator.py:448-529 | along every log each candidate is evaluated with the ledger and the figures its last evaluation left, the first time with its initial ones, and the durable state stores just those |
| ShadowAccounts.OutcomeIs | xauby/shadow_evaluator.py:448-493 | so the evaluation of a candle is the strategy's own on that account and on the rows of the candle |
| ShadowAccounts.EventTells | xauby/shadow_evaluator.py:508-557 | what an event says of a candidate is the record of that evaluation with the figures after it, the first candle of the log and this one; and which rows, clock and candle it names |
| ShadowCounts.FigureNames | xauby/shadow_evaluator.py:200-210 | the names the figures are stored under, and the values of a new candidate |
| ShadowCounts.TradedFigures | xauby/shadow_evaluator.py:494-502 | an evaluation that leaves a position counts one trade and adds its gain or loss to the total it belongs to; any other leaves the trade figures alone |
| ShadowCounts.NextFigures | xauby/shadow_evaluator.py:503-511 | every stored figure after an evaluation, told by the figures before it: peak, drawdown, health counters |
| ShadowFigures.LogCarries | xauby/shadow_evaluator.py:473-533 | the figures in the state of a log are those of the candidate's evaluations along the log, each on the account the one before it left |
| ShadowFigures.LoggedFigures | xauby/shadow_evaluator.py:494-507 | trades closed, peak and rounded drawdown stored in the log are those of the candidate's whole equity curve |
| ShadowStats.StatsSummarise | xauby/shadow_evaluator.py:494-507 | for any rounding of stored numbers: the peak is that of the whole equity curve and the drawdown that of the whole curve, rounded once |
| ShadowStats.TotalsAccount | xauby/shadow_evaluator.py:494-502 | gross profit less gross loss is all that was realized, as long as the partial sums are stored as they are |
| ShadowStats.StoredDrawdown | xauby/shadow_evaluator.py:503-507 | the stored drawdown is the rounded largest loss over all pairs of points when no negative equity loses more against the smallest positive equity before it, and without rounding only then |
| Drawdown.SinglePassIsQuadraticIff | scripts/evaluate_okx_xau_migration.py:173-178 | the single pass computes the maximum over all pairs of points if and only if no negative point loses more, against the smallest positive point before it, than the pass has found |
| Drawdown.SinglePassIsQuadratic | scripts/evaluate_okx_xau_migration.py:173-178 | in particular while equity stays nonnegative |
| Drawdown.TwoPassesAreQuadratic | scripts/evaluate_okx_xau_migration.py:173-178 | with a second pass from the smallest positive point it is that maximum for every curve |
| Drawdown.WorstDropIsUnique | scripts/evaluate_okx_xau_migration.py:173-178 | that maximum is determined by the points alone |
| Drawdown.NegativeEquityDiffers | scripts/evaluate_okx_xau_migration.py:173-178 | a curve on which the single pass is not that maximum |
| ModeSimulator.NegativeEquityIsUnderreported | scripts/evaluate_okx_xau_migration.py:155-194 | candles and zones, behind any number of warm-up bars, on which the simulation reports 150 percent for a loss of 200 |
| RoundTrips.ModesMoveTogether | scripts/evaluate_okx_xau_migration.py:155-171 | at every bar long_short is long iff long_only is and short iff short_only is, since the same bar, with the same closed trips of that side |
| RoundTrips.TripsOfModes | scripts/evaluate_okx_xau_migration.py:155-181 | the trips of the one-sided modes are those of long_short on that side |
| RoundTrips.LongShortReverses | scripts/evaluate_okx_xau_migration.py:162-171 | after its first entry long_short is never flat at a bar end, leaves only by an immediate reversal and alternates its sides |
| TripLaws.HeldSince | scripts/evaluate_okx_xau_migration.py:155-171 | after any number of bars a mode holds a side since bar e if and only if it trades that side, the bar before e had freshly changed into the side's zone, the other zone has not come since, and no earlier change was still in force |
| TripLaws.FlatEnters | scripts/evaluate_okx_xau_migration.py:159-171 | a flat mode enters at a bar if and only if the bar before it has freshly changed into the zone of a side it trades |
| TripLaws.TripsAre | scripts/evaluate_okx_xau_migration.py:162-165 | a round trip from e to x is recorded if and only if the side was held since e and the other zone came on the bar before x |
| TripLaws.TripsInOrder | scripts/evaluate_okx_xau_migration.py:155-171 | round trips are listed in the order of their exits, one each |
| TripLaws.LastTrip | scripts/evaluate_okx_xau_migration.py:180-181 | what is still held becomes one more trip, to the last close |
| TripLaws.LongEarns | scripts/evaluate_okx_xau_migration.py:122-153 | per unit bought: the sale with the slippage off, less the purchase with the slippage on top, less a fee on both, less rate times hours over eight times the closes of the bars held |
| TripLaws.ShortEarns | scripts/evaluate_okx_xau_migration.py:122-153 | the same for a short, which receives the funding |
| TripLaws.Compounds | scripts/evaluate_okx_xau_migration.py:138-152 | each trip multiplies the balance by one plus the share times its return |
| TripLaws.RowsMean | scripts/evaluate_okx_xau_migration.py:138-141 | a recorded trade has the side of its trip, the change it made to the balance, and the trip's return on the capital, or zero without capital |
| TripLaws.EquityIsMarked | scripts/evaluate_okx_xau_migration.py:173-175 | equity is the balance, and with a position what it would be at the mark |
| TripLaws.MarkedLong | scripts/evaluate_okx_xau_migration.py:126-131 | what a long is worth at a mark, per unit bought; without a positive entry price, nothing |
| TripLaws.MarkedShort | scripts/evaluate_okx_xau_migration.py:126-131 | the same for a short |
| RoundTrips.ProductOfModes | scripts/evaluate_okx_xau_migration.py:133-181 | the final long_short balance is the product of the final long_only and short_only balances, for all prices, zones and costs |
| RoundTrips.BalanceIsNetSum | scripts/evaluate_okx_xau_migration.py:138-141 | the compounded balance is one plus the sum of the recorded nets |
| RoundTrips.SidesAddUp | scripts/evaluate_okx_xau_migration.py:187-188 | the nets of the two sides add up to all nets |
| ModeSimulator.Simulation.AccrueFunding | scripts/evaluate_okx_xau_migration.py:126-131 | funding grows by side, notional at the mark and the share of eight hours, and by nothing when there is none |
| ModeSimulator.Simulation.ClosePosition | scripts/evaluate_okx_xau_migration.py:133-145 | balance and trade list after a close with slippage, fees on both legs and funding, and the flat state |
| ModeSimulator.Simulation.OpenPosition | scripts/evaluate_okx_xau_migration.py:147-153 | side, slipped entry and quantity after an entry |
| ModeSimulator.Simulation.ExitAtOpen | scripts/evaluate_okx_xau_migration.py:162-165 | an opposite zone closes the position at this open as a round trip of the specification |
| ModeSimulator.Simulation.EnterAtOpen | scripts/evaluate_okx_xau_migration.py:159-171 | a fresh zone opens a position the mode allows |
| ModeSimulator.Simulation.MarkToMarket | scripts/evaluate_okx_xau_migration.py:173-178 | peak and drawdown after the bar are those of the equity curve extended by the marked equity |
| ModeSimulator.Simulation.Bar | scripts/evaluate_okx_xau_migration.py:155-178 | one bar takes the object from the specified state of one bar to that of the next |
| ModeSimulator.Simulation.CloseOut | scripts/evaluate_okx_xau_migration.py:180-181 | what is still held is closed at the last close; balance and trades are the specified ones |
| ModeSimulator.Simulation.Run | scripts/evaluate_okx_xau_migration.py:155-198 | the whole loop computes the report of the round-trip specification |
| ModeSimulator.RunMode | scripts/evaluate_okx_xau_migration.py:95-198 | the same for a fresh simulation |
| ModeSimulator.EvaluateMigration | scripts/evaluate_okx_xau_migration.py:201-247 | without candles an error; otherwise the three reports, the edge and the verdict |
| ModeSimulator.CloseIsCashFlow | scripts/evaluate_okx_xau_migration.py:135-138 | the net of a close is cash received less cash paid, fees and funding |
| ModeSimulator.GateReadsTheShortSide | scripts/evaluate_okx_xau_migration.py:228-229 | the edge is 100 times the long balance times the short profit, so a pass with a solvent long side and a positive threshold means short_only was profitable |
| ModeSimulator.ReportConserves | scripts/evaluate_okx_xau_migration.py:187-197 | net_pct is long_net_pct plus short_net_pct, and the balance is one plus the recorded nets |
| ModeSimulator.ReportMeans | scripts/evaluate_okx_xau_migration.py:183-198 | every figure of the report from the balance and the trades: win rate over the winning trades, profit factor as gains over losses with its two special values, and the nets of both sides |
| ModeSimulator.ReportedDrawdown | scripts/evaluate_okx_xau_migration.py:173-194 | when exactly the reported drawdown is the largest loss over all pairs of points; always with nonnegative equity |
| Solvency.CurveNonnegative | scripts/evaluate_okx_xau_migration.py:155-178 | without leverage and funding, as long as no price moves so far against an earlier open that a position the mode may hold is wiped out, equity is never negative, whatever the zones |
| Solvency.BoundedDrawdown | scripts/evaluate_okx_xau_migration.py:173-194 | on such candles the reported drawdown is the largest relative loss between any two points |
| LongShortBacktest.Backtest.ClosePosition | scripts/backtest_long_short.py:71-81 | balance, trade list and flat state after a close |
| LongShortBacktest.Backtest.MarkToMarket | scripts/backtest_long_short.py:109-114 | peak and drawdown follow the equity curve |
| LongShortBacktest.Backtest.Run | scripts/backtest_long_short.py:89-133 | the older loop computes the same specification without slippage and funding |
| LongShortBacktest.SameAsMigration | scripts/backtest_long_short.py:54-133 | with its fee of 0.001 and 100 warm-up bars, zero slippage and funding, the two programs give the same report and the same trades, whatever the bar length |
| LongShortBacktest.SameAtEveryBar | scripts/backtest_long_short.py:89-114 | after the same number of bars the two programs hold the same side, entry and quantity and have the same balance, trades, peak and drawdown |
| LongShortBacktest.SameBook | scripts/backtest_long_short.py:89-114 | two cost settings with the same charges give the same balance, trades and equity curve for every prefix of the bars |
| LongShortBacktest.HoursDoNotMatter | scripts/evaluate_okx_xau_migration.py:126-131 | without a funding rate the bar length changes nothing |
| ShortSimulator.ShortPositionSimulator.UpdateSlBreach | scripts/regime_strategy_eval.py:183-191 | the breach counter after one price, and nothing else changed |
| ShortSimulator.ShortPositionSimulator.Open | scripts/regime_strategy_eval.py:204-231 | the position opened, or the cases in which nothing changes |
| ShortSimulator.ShortPositionSimulator.CloseAt | scripts/regime_strategy_eval.py:233-258 | balance, trade and flat state after a close; nothing without a position |
| ShortSimulator.ShortPositionSimulator.TrailStop | scripts/regime_strategy_eval.py:284-294 | lowest low and stop after a bar, with trailing and breakeven |
| ShortSimulator.ShortPositionSimulator.Process | scripts/regime_strategy_eval.py:260-295 | one bar: open, gap stop, signal exit or trailing |
| ShortSimulator.SizeIsBounded | scripts/regime_strategy_eval.py:210-219 | quantity times stop distance is within the risk budget, the notional within the cap, and one of the two bounds is met exactly |
| ShortSimulator.OpenedStop | scripts/regime_strategy_eval.py:193-231 | where the stop of a new short is for each kind of signal, its size, and that nothing else changes |
| ShortSimulator.OpensIff | scripts/regime_strategy_eval.py:204-231 | with money in the account a short opens if and only if none is open, the price is positive, the stop is above it and there is a risk budget |
| ShortSimulator.HeldBar | scripts/regime_strategy_eval.py:271-295 | a bar closes an open short if and only if it opens at or above the stop or its signal asks for it: at the open, with the trigger, the result and the percentage that are recorded; otherwise only stop and lowest low can change |
| ShortSimulator.FlatBar | scripts/regime_strategy_eval.py:262-269 | a bar without a short does nothing unless its signal asks for one |
| ShortSimulator.CloseIsCashFlow | scripts/regime_strategy_eval.py:239-243 | the net of a short is entry received less exit paid, fees, and funding for each eight hours held |
| ShortSimulator.BalanceIsRecorded | scripts/regime_strategy_eval.py:244-256 | over any bars the balance is the initial one plus all recorded results |
| ShortSimulator.StopNeverRises | scripts/regime_strategy_eval.py:284-294 | every reachable position is sound, and while it stays open its stop and lowest low never rise and nothing else of it changes |
| ShortSimulator.StopIsLeast | scripts/regime_strategy_eval.py:284-294 | the stop is the least of the initial stop, the lowest low so far plus the trailing multiple of the range for every bar, and, for exactly those bars on which breakeven is on and the lowest low has come down by the activation multiple, the entry less the buffer multiple |
| ShortSimulator.LowestLowIsLeast | scripts/regime_strategy_eval.py:284 | the lowest low is the least of the entry and all lows |
| ShortSimulator.HeldIsTrailed | scripts/regime_strategy_eval.py:271-295 | over any bars without a recorded trade an open short has exactly that stop |
| ShortSimulator.OpenedShortStop | scripts/regime_strategy_eval.py:260-295 | a short that a bar opens and that is still open after more bars has the least of its own initial stop and all its bars' candidates |
| ShortSimulator.CounterIsRun | scripts/regime_strategy_eval.py:183-191 | the breach counter is the number of breaching prices at the end, each judged by the stop then in force, since the last opening or closing |
| ShortSimulator.ConfirmedMeansConsecutive | scripts/regime_strategy_eval.py:179-191 | over any interleaving of prices and bars, which move the stop, a breach is confirmed if and only if the last so many prices each breached the stop in force |
| Portfolio.CombineArms | scripts/certify_btc_ensemble.py:276-376 | the refusals, and all figures of the result; what they are is told by the five rows that follow |
| Portfolio.CombinesIff | scripts/certify_btc_ensemble.py:282-293 | two arms are combined if and only if the weight lies inside (0, 1) and clocks and curves agree in length and time |
| Portfolio.WeightsOfArms | scripts/certify_btc_ensemble.py:294-297 | every point is the weight times the left arm plus the rest times the right one, and the net profit is the same mean of the two net profits |
| Portfolio.TradeFigures | scripts/certify_btc_ensemble.py:310-327 | wins, losses, win rate, gross figures and profit factor over the trades of both arms, each with the weight of its own arm |
| Portfolio.CurveFigures | scripts/certify_btc_ensemble.py:303-338 | drawdown, monthly returns, positive months, conflicts and exposure |
| Portfolio.RateFigures | scripts/certify_btc_ensemble.py:298-302 | the Sharpe ratio is that of the relative rises from bar to bar, if there are at least two |
| Portfolio.YearlyGrowth | scripts/certify_btc_ensemble.py:339-345 | the yearly growth is the final value over 1000 to the power of 2190 over the number of bars |
| Portfolio.SideCounts | scripts/certify_btc_ensemble.py:328-337 | bars on which the arms conflict and bars with exposure, over the bars both cover; conflicts are among the exposed bars |
| Portfolio.TallyAccounts | scripts/certify_btc_ensemble.py:311-324 | every trade is a win or a loss, and gross profit less gross loss is the sum of all results |
| Portfolio.DrawdownPct | scripts/certify_btc_ensemble.py:303-308 | the loop is the drawdown of the curve with its peak seeded at 1000 |
| Portfolio.DiversificationBound | scripts/certify_btc_ensemble.py:294-308 | for positive curves the combined drawdown never exceeds the larger drawdown of the arms |
| Portfolio.MonthlyReturns | scripts/certify_btc_ensemble.py:260-273 | the loop computes each month's return over the month before |
| Portfolio.ReturnsAre | scripts/certify_btc_ensemble.py:267-273 | each return is relative to the month before, or the initial value, and zero when that is not positive |
| Portfolio.MonthEndsMean | scripts/certify_btc_ensemble.py:263-266 | months strictly increase, and a month has the equity at its last point, for any order of the clock |
| Portfolio.MonthlyReturnsCompound | scripts/certify_btc_ensemble.py:267-273 | compounding the monthly returns of a positive curve reproduces its final value exactly |
| RegimeStats.TotalIsBetweenPlusWithin | scripts/regime_forward_validate.py:214-218 | around any centre the total sum of squares is the between-group part plus the within-group part |
| RegimeStats.EtaNeedsNoClamp | scripts/regime_forward_validate.py:209-219 | eta squared lies in [0, 1] without its clamp, and is one if and only if no group varies inside |
| RegimeStats.EtaWithoutVariation | scripts/regime_forward_validate.py:212-217 | without two values, or when all are the same, nothing is explained |
| RegimeStats.RunLengths | scripts/regime_forward_validate.py:193-206 | the loop files the lengths of the maximal runs under their labels, in order |
| RegimeStats.RunsRoundTrip | scripts/regime_forward_validate.py:193-206 | the runs write the labels out again and none could be longer |
| RegimeStats.RunsAddUp | scripts/regime_forward_validate.py:280-296 | run lengths of a label add up to its count, stays plus runs are its count, and there is one run more than flips |
| RegimeStats.Transitions | scripts/regime_forward_validate.py:285-296 | the counting loop computes stays, successors and flips |
| RegimeSwitch.PhaseIgnoresLaterBars | scripts/xau_regime_switch_check.py:68-82 | a bar's phase depends on earlier bars only |
| RegimeSwitch.PhaseMeans | scripts/xau_regime_switch_check.py:68-82 | bull, bear and unknown in terms of the close and the average before the bar and the average 21 bars earlier |
| RegimeSwitch.KnownRows | scripts/xau_regime_switch_check.py:93 | bars of unknown phase are dropped, the rest kept in order |
| RegimeSwitch.KnownParts | scripts/xau_regime_switch_check.py:93 | of any series exactly the bars of unknown phase are dropped |
| RegimeSwitch.Evaluate | scripts/xau_regime_switch_check.py:91-134 | the walk reports the specified verdict, or that there is no history |
| RegimeSwitch.ReportMeans | scripts/xau_regime_switch_check.py:121-134 | the reported streak is the run of the last bar's kind, with what it lacks of 30, and the rule and the switches are the declared ones |
| RegimeSwitch.RuleSaysLatestWindow | scripts/xau_regime_switch_check.py:97-119 | what the streaming rule says is the kind of the latest window of 30 bars of one kind, non-bull without any |
| RegimeSwitch.LatestIsLatest | scripts/xau_regime_switch_check.py:104-119 | it says bull if and only if some bull window has no later non-bull window |
| RegimeSwitch.SwitchesAreWellSpaced | scripts/xau_regime_switch_check.py:104-119 | each switch ends a window of 30 bars of its target, targets alternate starting with bull, and switches are at least 30 known bars apart |
| RegimeSwitch.SwitchListGrows | scripts/xau_regime_switch_check.py:104-119 | a longer series only extends the switch list |
| StableSort.SortIsStable | scripts/btc_supertrend_okx_pf_grid.py:344-354 | sorted, and equal keys keep their order |
| StableSort.StableSortIsUnique | scripts/btc_supertrend_okx_pf_grid.py:344-354 | sortedness and stability determine the result |
| StableSort.DistinctKeysSortAlike | scripts/btc_supertrend_okx_pf_grid_shard.py:58 | permutations without equal keys sort to the same list |
| GridShards.ShardItemsAt | scripts/btc_supertrend_okx_pf_grid_shard.py:37-42 | a shard exists exactly for an index in range; its element k is element index + k * count of the grid, and it ends where the grid does |
| GridShards.ShardsPartition | scripts/btc_supertrend_okx_pf_grid_shard.py:37-42 | for every count the shards together hold each item once |
| GridShards.VerifyAcceptsPermutations | scripts/btc_supertrend_okx_pf_grid_shard.py:45-59 | a union of shards is accepted if and only if its ids are those of the grid, each once, in any order |
| GridShards.RefusalNames | scripts/btc_supertrend_okx_pf_grid_shard.py:45-57 | a refused union names exactly the ids on several rows, the ids no row has and the ids that are not of the grid |
| GridShards.LoadShardRows | scripts/btc_supertrend_okx_pf_grid_shard.py:103-111 | without files an error, otherwise the verification of all rows in file order |
| GridShards.ShardingIsInvisible | scripts/btc_supertrend_okx_pf_grid_shard.py:71-111 | for every shard count, completion order and file order the merged rows are accepted and equal those of the unsharded run |
| GridShards.RankMeans | scripts/btc_supertrend_okx_pf_grid.py:327-367 | a ranking is the stable descending sort of the valid rows, and no valid row beats its first |
| GridShards.RankedByOutOfSample | scripts/btc_supertrend_okx_pf_grid.py:344-354 | the first ranking falls by out-of-sample profit factor, then by the weaker of the two profit factors, then by out-of-sample profit |
| GridShards.RankedByWeaker | scripts/btc_supertrend_okx_pf_grid.py:357-367 | the balanced one falls by the weaker profit factor first |
| GridShards.RankedAre | scripts/btc_supertrend_okx_pf_grid.py:327-337 | both hold exactly the cells that did not fail, have 30 and 10 trades and made money in both samples |
| GridShards.SameRankings | scripts/btc_supertrend_okx_pf_grid_shard.py:124-126 | sharded and unsharded runs publish the same two rankings |
| Reconcile.SymbolIdempotent | scripts/controlled_restart_preflight.py:91-99 | normalising a symbol twice is normalising it once |
| Reconcile.SymbolParts | scripts/controlled_restart_preflight.py:91-99 | normalising keeps what is in front of a colon, without slashes, underscores and dashes, in upper case |
| Reconcile.QtyTolerance | scripts/controlled_restart_preflight.py:173-180 | the tolerance is positive whatever the filters say; what it is, `DifferenceMeans` tells |
| Reconcile.PriceTolerance | scripts/controlled_restart_preflight.py:183-189 | the same for prices |
| Reconcile.DerivativePositions | scripts/controlled_restart_preflight.py:192-286 | the two loops compute the specified live map and reasons; an adapter that cannot answer is a reason |
| Reconcile.NoReasonsMeansReconciled | scripts/controlled_restart_preflight.py:211-286 | with tracked positions allowed there is no reason if and only if nonzero rows and tracked pairs are in bijection and agree in side, in quantity within minQty, the step (0.0001 for none) or 1e-12 (1e-8 without filters), in entry within the tick, a millionth of the price or 1e-8, and in id |
| Reconcile.NoReasonsMeansFlat | scripts/controlled_restart_preflight.py:214-242 | with tracked positions disallowed there is no reason if and only if no row is a position |
| Reconcile.DifferenceMeans | scripts/controlled_restart_preflight.py:250-286 | a difference in side, quantity, entry or id is reported if and only if the two descriptions of the position differ in it, by more than those tolerances |
| Reconcile.UntrackedMeans | scripts/controlled_restart_preflight.py:220-224 | a position is reported as untracked, with its quantity, if and only if it is on no configured pair |
| Reconcile.MultipleMeans | scripts/controlled_restart_preflight.py:225-227 | several positions are reported if and only if a configured pair has more than one |
| Reconcile.LiveMeans | scripts/controlled_restart_preflight.py:228-234 | what is listed as live for a configured pair are the side, quantity, entry and id of one of its rows |
| Reconcile.OpenMeans | scripts/controlled_restart_preflight.py:239-242 | with tracked positions disallowed an open position is reported if and only if a configured pair has one |
| Reconcile.ReasonsAreTrue | scripts/controlled_restart_preflight.py:211-286 | a reason given is true of the exchange rows and the tracked positions if and only if it is not a position called untracked that is tracked under another spelling |
| Reconcile.MissingMeans | scripts/controlled_restart_preflight.py:243-245 | exactly when a symbol is reported missing on the exchange |
| Reconcile.NotTrackedMeans | scripts/controlled_restart_preflight.py:246-248 | exactly when a symbol is reported as not tracked |
| Reconcile.OrderIsIrrelevant | scripts/controlled_restart_preflight.py:214-233 | permuting the exchange rows never changes the verdict |
| Reconcile.OtherKeysAreIgnored | scripts/controlled_restart_preflight.py:235-238 | tracked positions under a key that is not a normalised pair symbol change nothing |
| Reconcile.MissedPosition | scripts/controlled_restart_preflight.py:137-155 | for all rows, pairs and tracked positions: a tracked pair the exchange does not hold is reported if and only if its normal form is a key of the tracked positions; otherwise no reason names it |
| Reconcile.TrackedButCalledUntracked | scripts/controlled_restart_preflight.py:246-248 | and one the exchange does hold is called untracked if and only if its normal form is not a key |
| Reconcile.StripMeans | xauby/runtime/symbol_utils.py:37 | stripping takes the white space at both ends and nothing else |
| Reconcile.RegistrySpellingIsNormal | xauby/runtime/symbol_utils.py:36-42 | of the spellings the registry uses, exactly those with a slash, a dash or a colon are not their own normal form |
| Reconcile.SlashedPair | xauby/runtime/symbol_utils.py:36-42 | such a pair, missed when the exchange has no position and called untracked when it has one |
| Deadman.Watchdog.RunOnce | scripts/deadman_switch.py:338-385 | one process: exit code, message attempt and the marker it leaves, also when the marker cannot be written |
| Deadman.Watchdog.RunAll | scripts/deadman_switch.py:338-385 | a sequence of processes that share only the marker |
| Deadman.MarkerIsHistory | scripts/deadman_switch.py:339-381 | the marker tells whether the last tick was silent, when an alert last got through and when the engine was last alive |
| Deadman.ActionsFollowHistory | scripts/deadman_switch.py:338-385 | exit code 1 iff there is no state file or it is older than the limit; an alert attempt iff the silence is new or the last delivered alert is old enough; a recovery attempt iff the first good tick after a silent one |
| Deadman.AlertsAreSpaced | scripts/deadman_switch.py:365-377 | an alert that got through and whose own marker was written is followed by no other in the same outage before the interval has passed, whichever later markers are lost |
| Deadman.RepeatedAlert | scripts/deadman_switch.py:365-377 | with that marker lost the alert is sent again at the next tick |
| Deadman.AlertsAreBounded | scripts/deadman_switch.py:365-377 | an outage of length D brings at most floor(D / interval) + 1 delivered alerts, as long as their own markers are written |
| Deadman.LostAlertIsRetried | scripts/deadman_switch.py:365-377 | an unreported outage is retried at a later tick if and only if the last alert of an earlier outage is old enough |
| Deadman.UnreportedOutage | scripts/deadman_switch.py:365-381 | a run in which the second outage's lost alert is not retried |
| Deadman.OnlyKeptCount | scripts/deadman_switch.py:222-232 | for every mix of written and lost markers the switch is in the state that the ticks with a written marker alone would have left |
| Deadman.ActionsFollowKept | scripts/deadman_switch.py:338-385 | for every such mix: an alert attempt iff the engine is silent and the last kept tick was not, or the last alert delivered at a kept tick is old enough; a recovery attempt iff the engine is not silent and the last kept tick was |
| Deadman.LostRecovery | scripts/deadman_switch.py:360-366 | three ticks with the default settings: the recovery marker is lost, and the first silent tick of the next outage is suppressed |

## Left out

- ShadowFolds.BatchIndependence: requires that every run sees all rows that have closed, with their final values; without that the statement is false (`LateRegimeRow`, `ShorterSnapshot`). `ExactlyOnce` does not require it.
- ShadowHistories.ExactlyOnce: the opening times a run sees are a stretch of those of the history. A candle filled in later between older ones is not modelled; a view that does not reach back leaves a gap (`ReachIff`). What holds without these conditions is `EachOnce`.
- ShadowSchedules.NotSurvived: needs a collision-free digest; without one the removed event and the one before it could have the same hash.
- ShadowEvaluator.Worker.EvaluateTimestamp: strategies, ledgers and the runner pool are deterministic functions of the snapshot and the prior candidate state; their errors are not modelled. The signal's own production time and duration are part of that outcome, so they are taken as reproducible.
- ShadowStats.StatsSummarise: a stored number is rounded once, when it is written, by any monotone idempotent function; the roundings inside one float expression are not modelled, and equities are taken to be numbers that are stored as they are.
- ShadowFigures.LoggedFigures: what an outcome's equity and realized delta are made of is the ledger's business, which is not part of this model.
- JsonProofs.DecodeEncode: numbers with a fraction are kept as their literal text; the decoder does not accept NaN, Infinity, bytes outside ASCII or lone surrogates, and an event with `schema_version` written as 1.0 or true is refused. No event the worker writes contains any of these.
- JsonProofs.StrictPrefixDoesNotDecode: stated for objects, which is what every event is; a prefix of a number may be a number.
- ShadowEvaluator.Worker.Run: the status file, the tenant lock, fsync and the validation of the spec are not modelled; one worker at a time is assumed. A missing log file is an empty one, and a byte is the character with its code.
- EventLogProofs.LastHashCommits: the digest is a parameter; SHA-256 itself is not modelled, and it is collision-free only as an assumption.
- CandleStore.SnapshotHistory: the copy of one table; creating, checking and publishing the snapshot database is not modelled.
- ModeSimulator.Simulation.Run: needs at least two warm-up bars (the program uses 100), and the mode is one of the three; zones are inputs, so smoothing and averages are not modelled.
- ShortSimulator.ShortPositionSimulator.Process: the open position is a value in a field; sharing of the position object is not modelled. `high`, `close` and `zone` are not used by the code and are absent.
- Portfolio.CombineArms: rounding is left out, the Sharpe formula, real powers and the calendar are parameters, and sides are compared as texts.
- Portfolio.MonthlyReturns: a timestamp is its month number; the calendar is not modelled.
- RegimeSwitch.Evaluate: dates are day numbers, the trigger text and rounding are left out, and the moving average is an input.
- RegimeStats.EtaNeedsNoClamp: permutation p-values, half-lives and the regime classifier are not modelled.
- GridShards.RankMeans: the library sort is represented by a verified insertion sort with the same specification (sorted and stable), which determines the result.
- GridShards.ShardingIsInvisible: evaluating a cell is a deterministic function that keeps the id; grid ids are assumed distinct. Rows carry the ranked figures only.
- Reconcile.SymbolIdempotent: upper-casing is that of ASCII letters, and stripping that of ASCII white space.
- Reconcile.RegistrySpellingIsNormal: models `normalize_symbol`; the variant for whitelist markets differs only in when it appends the quote asset.
- Reconcile.DerivativePositions: the message texts are reduced to their kind and symbol; an unparsable number in a row is not modelled.
- Reconcile.NoReasonsMeansReconciled: covers derivative positions; the checks of open orders, stops and balances around it are thresholds that one read settles.
- Deadman.Watchdog.RunOnce: the state file is its modification time; credentials, message texts and the process table are not modelled, and a dry run is a delivery that always succeeds.
- Walk-forward folds, certification gates, Monte Carlo and bootstrap statistics, grid construction, network fetchers, Telegram, the website, the launcher and the backup and deployment scripts are not part of this model.
