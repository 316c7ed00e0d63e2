# Verified model of the trading backend

A Dafny 4.11 model of the parts of the backend whose correctness spans several calls, stores or
runs, with proofs about every input, every interleaving and every run. `dafny verify
dfyconfig.toml` checks all of it.

## What is modelled

**Prediction scoring** (`predictor.js`). Predictions and the online model live in two stores that
cannot be written together. `OnlineLearning` is the model and its SGD step, `PredictionRecords`
the pure status rules of one record, `ScoringRun` a whole `processMatured` run as a function of
the outcome of every store call and fetch (done, reported as failed with or
without its write staying, stopped before, stopped after).
`GradientStep` says what a step does to every weight and that it goes towards the label, `ScoringTriage`
what is decided about a record, on its own fields and the calendar's answers.
`ScoringSafety` says what a run learns and proves exactly-once learning and write ordering against
that log, `ScoringRecords` the record machine, `ScoringRecovery` exactly what a run without
failures completes and `ScoringFates` the same on fields, candles and dates, with what the run reports,
`PredictionLifecycle` all of it for every history from empty stores.
`RecordedPredictions` says on the request's fields when `predict` saves and what.
`InterleavedSave` is what a run does to a prediction saved while it waits.
`PredictorService` holds the objects and loops of the program, each method proved to do what
those functions say. `ModelMutex` is the promise chain that keeps runs apart.

**Daily-bar execution** (`lib/backtest/execution-model.js`). `ExecutionModel` has validation,
fills, searches and the engine loops; `ExecutionOutcomes` says on prices which outcome every
accepted input has; `ExecutionTheorems` compares the exit rule with every
intrabar path, proves that no decision looks ahead, and what a completed trade looks like;
`MixedSymbols` is about lists of several symbols.

**Trading costs** (`lib/backtest/cost-policy.js`). `CostAmounts` is the integer arithmetic with its
overflow guards; `CostPolicy` shows that accepted policy sets tile a range of days and prices a
round trip.

**Synthetic calendars** (`lib/backtest/calendar-validation.js`). `CalendarValidation`, over the day
numbers justified by `CivilDates`.

**Smaller protocols.** `TokenManager` (`kb/token.js`), `ContinuationPaging` (`kb/broker.js`),
`PerformanceMetrics` (`lib/backtest/performance-metrics.js`), `RuleBreeding`, `RuleRanking` and `RuleEvolution` (`evolve.js`),
`RollingAverage` (`src/nindicators.js`), and `StableSort`, `CanonicalJson` and `CalendarChecksum`
(`lib/calendar/calendar-checksum.js`).

Prices and metrics are reals, money amounts are integers with the 2^53 − 1 limit written out, dates
are day numbers. The sigmoid, the four-decimal rounding, double-precision addition of integers,
the fitness formula and the digest are parameters constrained only by the properties stated where
they are used; clocks, random choices, candle fetches, store calls and servers are inputs.

## Where the code falls short of its own intent

Each of these is proved, with the exact condition under which the intent holds.

- `predict` saves outside the run mutex. A prediction saved while a scoring run waits is lost exactly when
  the run writes the list again (`InterleavedSave.InterleavedSaveSurvivesIff`), which in a run without
  failures can be read off the loaded stores (`InterleavedSave.CleanSaveSurvivesIff`); a run that loses one
  is `InterleavedSave.ASaveIsLost`.
- An EVALUATED write that stays although the store reports it as failed, as when releasing its lock fails, is
  taken back by the run's next write (`ScoringRecords.ReportedFailureIsTakenBack`). Nothing is learnt twice: a
  later run acknowledges the record again.
- Entry and exit searches do not look at the symbol. On lists mixing symbols an order can fill before its own
  signal (`MixedSymbols.MixedSymbolsFillBeforeTheSignal`) and exit before its entry
  (`MixedSymbols.MixedSymbolsExitBeforeTheEntry`), exactly when the list has an early low
  (`MixedSymbols.EarlyFillIffEarlyLow`) or an early extreme (`MixedSymbols.EarlyExitIffEarlyExtreme`).
- Revoking a token does not stop a request already sent: its answer puts a token requested before the
  revocation back into the cache (`TokenManager.RevokedTokenReturns`), exactly when some request was awaiting
  its answer (`TokenManager.RevocationSticksIffQuiet`).
- Rules are documented as two or three conditions (`evolve.js:5`), and the slice at the end of a crossing
  suggests a minimum of two; a crossing has one exactly when its parents share one key
  (`RuleBreeding.CrossingCanShrink`), and mutation can bring that about (`RuleBreeding.OneConditionIsReachable`).
- Session exceptions are sorted by date alone, sources by reference and name. Entries that tie and differ in
  canonical form keep their input order, so the checksum then depends on it
  (`CalendarChecksum.ExceptionOrderShows`), and only then (`CalendarChecksum.ExceptionOrderInvisibleIff`,
  `CalendarChecksum.SourceOrderInvisibleIff`).

## Model

| member | source | states |
|---|---|---|
| `PredictionLifecycle.ReachableExactlyOnce` | predictor.js:544-607 | From empty stores, after any sequence of predictions, history trainings and scoring runs with any call failing and a stop at any await: applied ids are pairwise distinct, every settled prediction's id is applied, every applied id has a stored prediction with a durable price, and the model is the replay of exactly what the history learnt: one SGD step per applied id, from its prediction's features and price, in the order of the applied list, and one per sample of the saved trainings; `trained` = `wins` + `losses` = applied ids + those samples |
| `PredictionLifecycle.ReachableRecords` | predictor.js:724-770 | In every reachable state no two records share the six key fields, a target is CONFIRMED exactly when dated, and a record is scored exactly when it is priced |
| `PredictionLifecycle.RecoveryCompletes` | predictor.js:870-884 | After any history, one run in which no call fails leaves every prediction that has a recorded price settled, at the same price, with its id applied once; the run takes exactly one SGD step for each id it adds and none for an id applied before |
| `PredictionLifecycle.PriceIsFinal` | predictor.js:964-1000 | Once durable, a price and its outcome are changed by no later event, and a settled record is changed by nothing |
| `PredictionLifecycle.PriceProvenance` | predictor.js:949-1010 | In every reachable state each durable price was recorded by some earlier scoring run, from a fetched candle dated exactly the target, not flagged not-final or open, and flagged final or closed or of a day before that run's asOf, with base < target ≤ asOf |
| `PredictionLifecycle.HistoriesStaySound` | predictor.js:848-1098 | Every admissible history ends in stores that agree on the log extended by exactly what its events learn, whose history entries are the samples of its saved trainings in order |
| `PredictionLifecycle.HistoryLogSamples` | predictor.js:1070-1096 | The steps of a history that belong to no prediction are the samples of its saved trainings, in order |
| `PredictionLifecycle.EventKeepsSound` | predictor.js:848-1098 | One event of any kind extends the log by exactly what it learns: a run by its own steps, a saved training by its samples, a prediction by nothing |
| `PredictionLifecycle.NewPredictionKeepsSound` | predictor.js:722-735 | Saving a prediction keeps ids and six-field keys distinct and the log grounded |
| `PredictionLifecycle.ScoringKeepsSound` | predictor.js:848-1041 | One scoring run keeps the agreement on the log extended by exactly the steps of that run |
| `PredictionLifecycle.TrainingKeepsSound` | predictor.js:1070-1096 | A saved training extends the log by exactly its samples, in order, and applies no id |
| `PredictionLifecycle.DraftWellFormed` | predictor.js:672-735 | A recorded prediction was made on a final candle no later than the data, targets a later day, and is PENDING exactly when its target is dated |
| `RecordedPredictions.RecordedIff` | predictor.js:666-735 | A prediction is recorded exactly when base, horizon, candle flags, stated finality, target and close are acceptable and no stored record has the same symbol, base, horizon type, horizon days, model version and feature version |
| `RecordedPredictions.RecordCarriesRequest` | predictor.js:736-775 | The record holds the request's fields, no outcome, the calendar's target with the status it implies, and `isFinal` among the missing data exactly when neither the candle's flags nor the calendar's answer spare it |
| `ScoringSafety.RunKeepsConsistent` | predictor.js:848-1041 | For every outcome of every store call and every stop, the stores agree afterwards on the log extended by what the run learnt: steps from predictions only, one per id, none for an id applied before |
| `ScoringSafety.RunLearnsPredictions` | predictor.js:870-1030 | A run takes learning steps from predictions only |
| `ScoringSafety.AppliedLearnsNothing` | predictor.js:553-557 | The model step on an applied id changes the model neither in memory nor in the store |
| `ScoringSafety.RunUpToKeepsInvariant` | predictor.js:870-1030 | The loop invariant of a run, on the log of exactly the steps taken so far: memory and stores agree, memory holds the stored model, unreached records are as stored |
| `ScoringSafety.StepKeepsInvariant` | predictor.js:870-1030 | One record, whatever branch it takes, keeps the invariant and learns exactly its log |
| `ScoringSafety.RecordPriceKeepsInvariant` | predictor.js:976-1018 | Price commit, then model, then EVALUATED keeps the invariant under every outcome; nothing is learnt unless the price was committed |
| `ScoringSafety.LearnKeepsInvariant` | predictor.js:553-589 | The log gains exactly this prediction's entry, from its features and committed price, exactly when the model save reached the store |
| `ScoringSafety.UpdateKeepsInvariant` | predictor.js:544-607 | The model step learns exactly its log; an id already applied is acknowledged and leaves the model, in memory and in the store, as it is |
| `ScoringSafety.SettleKeepsInvariant` | predictor.js:591-606 | The EVALUATED commit and its rollback keep the invariant |
| `ScoringSafety.CommitKeepsInvariant` | predictor.js:1031-1037 | Writing the whole list is safe at any point of a live run |
| `ScoringSafety.PlanIsSafe` | predictor.js:886-947 | Triage settles nothing and touches no price, features, entry or id |
| `ScoringRecords.RunEvolves` | predictor.js:848-1041 | Whatever fails, a run changes a stored record only by the record machine: identity fields never, a settled record never, a recorded price never again |
| `ScoringRecords.ImageEvolves` | predictor.js:870-1030 | Every value a record can take in a run obeys the record machine; a new price comes only from a fetched candle dated exactly the target whose own flags or date make it final, with base < target ≤ asOf |
| `ScoringRecords.ImageWellFormed` | predictor.js:255-320 | Confirmed exactly when dated and scored exactly when priced is kept for every record by every run |
| `ScoringRecords.RunImages` | predictor.js:870-1030 | Each stored record after a run is one of the values its own iteration can produce |
| `ScoringRecords.ReportedFailureIsTakenBack` | lib/storage/json-file-store.js:398-414 | An EVALUATED commit that stays although it was reported as failed is taken back by the same run's next write exactly when that write reaches the store |
| `ScoringRecords.StepTouches` | predictor.js:870-1030 | One iteration changes its own record only, and other stored records only to what memory held |
| `ScoringRecovery.CleanRunSettlesExactly` | predictor.js:870-1041 | After a run without failures a record is settled exactly when a condition on the loaded stores holds; `ScoringFates.CleanRunFates` says the condition on fields and candles |
| `ScoringFates.CleanRunFates` | predictor.js:848-1041 | In a run without failures every record meets the fate read off its own fields, the calendar, the candles and the fetch budget, being settled afterwards exactly if it was or is now; skipped, processed, calendar-pending and pending are the numbers of records of those fates |
| `ScoringTriage.PlanOnFields` | predictor.js:886-947 | An open record is due exactly when its target day is on the calendar, after the base and no later than asOf; without a usable target its target is cleared; otherwise it waits, rejected exactly if the target is not after the base |
| `ScoringRecovery.CleanStepDone` | predictor.js:870-1030 | One iteration without failures settles its record exactly when that condition holds and spends one fetch exactly when it asks for candles |
| `ScoringRecovery.FetchBudget` | predictor.js:949-954 | Candle fetches never exceed `maxPerRun`, however the run ends |
| `InterleavedSave.InterleavedSaveSurvivesIff` | predictor.js:848-1037 | `predict` is outside the mutex: a prediction saved at any await of a run (before or in a fetch, with a price committed, with the model saved) is in the final store if and only if none of the run's remaining writes of the list reaches it; otherwise the run ends exactly as if it had never been saved |
| `InterleavedSave.CleanSaveSurvivesIff` | predictor.js:848-1037 | In a run in which no call fails the condition, at every kind of await, is on the loaded stores: no record from there on is settled or priced and no record is noted as changed; a save after a model save is always lost, and one after a price commit unless that price can never be learnt from |
| `InterleavedSave.WritesOnFields` | predictor.js:870-1030 | In a run without failures the list is written for a record exactly when its fate is to be settled now, or to have a price recorded that nothing can be learnt from |
| `InterleavedSave.ASaveIsLost` | predictor.js:848-1037 | From empty stores, a run without failures scores one prediction and loses the second, saved during its fetch |
| `InterleavedSave.StepCommutes` | predictor.js:870-1030 | An iteration that does not write the list keeps an interleaved save; one that does erases it and is otherwise unchanged |
| `InterleavedSave.ResumedIsRun` | predictor.js:870-1037 | The states at the awaits are states of the run: resuming from any of them is the run |
| `PredictionRecords.TargetCandle` | predictor.js:527-537 | Finds a candle dated exactly the target, and none only if there is none |
| `PredictionRecords.ScoringPrice` | predictor.js:427-442 | A price is offered exactly when the first candle of the day is not flagged running, is flagged final or is of a day before asOf, has a positive close, and the record has usable features and entry |
| `OnlineLearning.LearnedExplained` | predictor.js:555-577 | Scoring one prediction extends the replay log by exactly its own entry |
| `OnlineLearning.TrainedExplained` | predictor.js:1070-1096 | Training on history, with its tallies added once at the end, equals the step-by-step replay and applies no id |
| `GradientStep.LearningMoves` | predictor.js:555-577 | Every feature's weight becomes round4(old + 0.05·(label − sigmoid(Σ w·x))·x), all other weights stay; one more sample, won exactly when probability ≥ 1/2 meets a rise or less a fall |
| `GradientStep.TrainingMoves` | predictor.js:1070-1092 | Each sample of the candle history moves the weights and counts in the same way, starting from the model as it is |
| `GradientStep.StepsTowardsLabel` | predictor.js:563-577 | With exact rounding the score moves by 0.05·(label − probability)·Σx²: it never falls on a rise nor rises on a fall |
| `GradientStep.PriceNoted` | predictor.js:993-1010 | Recording a price notes price, direction from the entry and whether the model of the moment was right, asks for a model step, and changes nothing that identifies the record |
| `GradientStep.StepNoted` | predictor.js:561-572 | A model step notes anew whether the model it starts from was right about the recorded price |
| `OnlineLearning.EntriesAreOfTwoKinds` | predictor.js:1070-1096 | Learning steps are as many as applied ids and history samples together |
| `OnlineLearning.AppliedIffInIds` | predictor.js:539-542 | The applied test is membership in the list of applied ids |
| `OnlineLearning.WalkConcat` | predictor.js:1060-1085 | Walking two batches of samples one after the other is walking their concatenation, weights and hits alike |
| `PredictorService.ProcessMatured` | predictor.js:848-1041 | The in-place loop over the working copy, live model and tallies leaves the store, the counters and the outcome of the run function, for every environment |
| `PredictorService.ProcessRecord` | predictor.js:870-1030 | One iteration of the loop is one step of the run function |
| `PredictorService.ApplyModelUpdate` | predictor.js:544-607 | The model step in place is the model step of the run function, including what a failed save leaves behind |
| `PredictorService.LearnAndSave` | predictor.js:564-589 | One step of the live model and its save leave memory, store and phase as the run function says, for every outcome of the save |
| `PredictorService.SettleRecord` | predictor.js:591-606 | The EVALUATED commit with its rollback in place |
| `PredictorService.RecordPriceAndLearn` | predictor.js:976-1025 | Price commit first; the model only after it succeeded |
| `PredictorService.ScoreDueRecord` | predictor.js:954-1028 | The fetch for a due record and all that follows it, in place |
| `PredictorService.PlanRecord` | predictor.js:886-947 | The triage branches in place compute the plan function |
| `PredictorService.LiveModel.Descend` | predictor.js:564-570 | The loop over features with the error fixed before it is the SGD step, whose moves `GradientStep.LearningMoves` gives |
| `PredictorService.LiveModel.Apply` | predictor.js:562-583 | Weights, tallies and applied list move together, once |
| `PredictorService.TrainFromHistory` | predictor.js:1050-1098 | The walk and the single save at the end are the history-training event, whose moves `GradientStep.TrainingMoves` gives |
| `PredictorService.Predict` | predictor.js:722-776 | Deduplicate and save is the new-prediction event |
| `PredictorService.NothingAfterStop` | predictor.js:878-884 | A stopped or failed run does no further work |
| `ModelMutex.RunsAreSerial` | predictor.js:448-453 | For every interleaving of submissions, starts and completions and whichever runs fail, the observed starts and ends are those of a serial execution in submission order |
| `ModelMutex.NeverStuck` | predictor.js:448-453 | A failed run never blocks the chain: while a run is unsettled exactly one run is going or may start, and it is not a later one |
| `ExecutionTheorems.StopFirstIsTightWorstCase` | lib/backtest/execution-model.js:1091-1200 | Over every intrabar path from open to close within and reaching low and high: the bar exits iff the path triggers, never for more than the path's fill, some path attains the exit price, and the bar is ambiguous iff two of its paths fill differently |
| `ExecutionTheorems.ExitBoundsEveryPath` | lib/backtest/execution-model.js:1124-1200 | On each path the exit is at most the path's first-trigger fill, and equal to it unless the bar was ambiguous |
| `ExecutionTheorems.LowFirstAttains` | lib/backtest/execution-model.js:1124-1200 | The low-first path fills at exactly the exit price; on an ambiguous bar the high-first path fills at the target |
| `ExecutionTheorems.PrefixRunIsCutRun` | lib/backtest/execution-model.js:1209-1380 | Running on the first n bars gives the full run cut at n, for every n: same entry and exit as far as seen, and an unfilled, ineligible or blocked full run stays so or has no eligible bar yet |
| `ExecutionTheorems.NoLookAhead` | lib/backtest/execution-model.js:1209-1387 | Two accepted inputs agreeing on all bars up to the exit give the same entry, exit, reasons and gross figures |
| `ExecutionTheorems.FirstTriggeringBars` | lib/backtest/execution-model.js:984-1002 | Entry and exit are the first bars that fill and exit, from the first bar dated at or after the earliest date |
| `ExecutionTheorems.DatesInOrder` | lib/backtest/execution-model.js:832-895 | On one symbol: signal < earliest ≤ entry ≤ exit date, strictly for a limit touched inside its bar |
| `ExecutionTheorems.CompletedTrade` | lib/backtest/execution-model.js:1305-1387 | A take-profit exits at the target above the entry; a stop exits at most at the stop with change ≤ 0, zero exactly when a limit order gapped in at or below the stop |
| `ExecutionTheorems.GapBelowStop` | lib/backtest/execution-model.js:1056-1065 | An entry at or below the stop is a gap improvement and exits on its own bar at its own price |
| `ExecutionTheorems.GrossRate` | lib/backtest/execution-model.js:1382-1387 | The gross rate times the entry price is the change, and the rate exceeds −1 |
| `ExecutionTheorems.TradeShape` | lib/backtest/execution-model.js:1246-1380 | A simulated trade fills by its order's rule and searches its exit from the entry bar, or the next bar for a touched limit |
| `ExecutionTheorems.ExitOrigin` | lib/backtest/execution-model.js:1356-1387 | The exit is the exit rule on its bar, no earlier bar of the search exits, and its figures are against the entry price |
| `MixedSymbols.EarlyFillIffEarlyLow` | lib/backtest/execution-model.js:1267-1303 | The entry search does not filter by symbol: on an accepted list some limit order fills before its earliest date if and only if a later, earlier-dated bar has a new low |
| `MixedSymbols.MixedSymbolsFillBeforeTheSignal` | lib/backtest/execution-model.js:1267-1303 | A concrete accepted two-symbol input whose fill is dated before its own signal |
| `MixedSymbols.EarlyExitIffEarlyExtreme` | lib/backtest/execution-model.js:1356-1380 | The exit search does not filter by symbol either: on an accepted list some order exits on a bar dated before its entry if and only if a later, earlier-dated bar has a new low or a new high since a bar at which orders can be filled |
| `MixedSymbols.MixedSymbolsExitBeforeTheEntry` | lib/backtest/execution-model.js:1356-1380 | A concrete accepted two-symbol list on which an order exits before the date of its entry |
| `MixedSymbols.OneSymbolNeverExitsEarly` | lib/backtest/execution-model.js:1356-1380 | A one-symbol list never has such a bar |
| `MixedSymbols.OneSymbolNeverEarly` | lib/backtest/execution-model.js:860-895 | A one-symbol list never has such a bar |
| `ExecutionTheorems.EligibleIsFirst` | lib/backtest/execution-model.js:984-1002 | The eligible bar is the first one dated at or after the earliest date; none only if there is none |
| `ExecutionModel.ValidateExecutionInput` | lib/backtest/execution-model.js:628-982 | The input is accepted exactly when header, bars and market all are |
| `ExecutionModel.ValidateHeader` | lib/backtest/execution-model.js:704-858 | No header error exactly when order, prices, policy and date order are all acceptable |
| `ExecutionModel.ValidateCandles` | lib/backtest/execution-model.js:860-895 | The one-pass memories of last dates and seen pairs accept exactly the lists whose dates rise strictly within each symbol |
| `ExecutionModel.OrderStep` | lib/backtest/execution-model.js:863-894 | The two memories decide the next bar exactly as comparison with every earlier bar would |
| `ExecutionModel.ValidateMarkets` | lib/backtest/execution-model.js:919-956 | Accepted exactly when all bars have one market, equal to the stated one if any |
| `ExecutionModel.EvaluateDailyBarExecution` | lib/backtest/execution-model.js:1209-1410 | The engine's loops compute the evaluation function, whose outcomes `ExecutionOutcomes` states on prices |
| `ExecutionOutcomes.NoBarOutcome` | lib/backtest/execution-model.js:1209-1245 | Rejected input is blocked; accepted input has no eligible bar exactly when none is dated at or after the earliest date |
| `ExecutionOutcomes.MarketOutcome` | lib/backtest/execution-model.js:1250-1330 | A market order is simulated at the open of the first late bar exactly when stop < open < target, else blocked; it is never ambiguous |
| `ExecutionOutcomes.LimitUnfilled` | lib/backtest/execution-model.js:1272-1312 | A limit order is not filled exactly when no bar from the first late one on has a low at most the limit |
| `ExecutionOutcomes.LimitFilled` | lib/backtest/execution-model.js:1313-1373 | It fills on the first such bar: at an open at most the limit, always simulated; else at the limit, ambiguous exactly when the bar reaches stop or target |
| `ExecutionOutcomes.ExitOutcome` | lib/backtest/execution-model.js:1374-1405 | A simulated trade exits on the first bar from its start that reaches stop or target, at the price the bar's own prices name, and stays open exactly when none does |
| `ExecutionModel.FindEligibleEntryCandle` | lib/backtest/execution-model.js:984-1002 | The search loop returns the first eligible bar |
| `ExecutionModel.SearchExit` | lib/backtest/execution-model.js:1356-1387 | The exit loop returns the first exiting bar with its gross figures |
| `ExecutionModel.LimitEntry` | lib/backtest/execution-model.js:1035-1089 | A limit fill never costs more than the limit |
| `CostPolicy.AcceptedIffTiles` | lib/backtest/cost-policy.js:684-776 | A set is accepted exactly when every policy is and each market/channel/currency group covers every day of one contiguous range exactly once |
| `CostPolicy.SelectionIsTotal` | lib/backtest/cost-policy.js:684-776 | On an accepted set exactly one policy is in force on every day from a group's first day to its last end, none outside, and never two |
| `CostPolicy.OnlyLastIsOpen` | lib/backtest/cost-policy.js:741-751 | Only the last policy of an accepted group may be open-ended |
| `CostPolicy.ValidateCostPolicySet` | lib/backtest/cost-policy.js:684-776 | Grouping, sorting, pairwise overlap and adjacency loops report no error exactly for accepted sets |
| `CostPolicy.CheckPairs` | lib/backtest/cost-policy.js:722-737 | No overlap error exactly when no two policies of the sorted group overlap |
| `CostPolicy.CheckAdjacency` | lib/backtest/cost-policy.js:739-773 | No adjacency error exactly when each policy starts the day after its predecessor's end |
| `CostPolicy.GroupByKey` | lib/backtest/cost-policy.js:707-712 | The map built in one pass holds each key's policies, all of them, in list order |
| `CostPolicy.SelectEffectiveCostPolicy` | lib/backtest/cost-policy.js:815-890 | Each answer says what it should: the one covering policy, an actual overlap, or no policy with or without another market's |
| `CostPolicy.CalculateSyntheticTradeCost` | lib/backtest/cost-policy.js:1003-1173 | A trade is priced exactly when it and the set are accepted and a cost of it exists: amounts exact products, each commission the greater of the rounded rate and the minimum, each tax its rounded rate, all of the policies in force on the two days, totals exact sums in the safe range |
| `CostPolicy.ThreeTermGuard` | lib/backtest/cost-policy.js:1143-1149 | Checking the rounded three-term sum accepts exactly the safe true sums, and those are exact |
| `CostAmounts.RateIsExact` | lib/backtest/cost-policy.js:457-489 | On valid arguments a rate fails exactly when amount·rate exceeds 2^53−1, and otherwise returns the one floor, ceiling or half-up of amount·rate/10^6 |
| `CostAmounts.CommissionMeans` | lib/backtest/cost-policy.js:491-504 | On valid arguments a commission fails exactly when amount·rate exceeds 2^53 − 1; otherwise it is at least the one rounded rate, at least the minimum, and equal to one of them, and is the only such amount |
| `CostAmounts.TaxesMean` | lib/backtest/cost-policy.js:506-548 | On valid arguments the taxes are the only amounts that round each rate on its own with a safe exact sum, and fail exactly when there are none |
| `CostAmounts.SafeMultiplyExact` | lib/backtest/cost-policy.js:445-455 | On safe integers the guarded product succeeds exactly when |a·b| ≤ 2^53−1, and is exact |
| `CostAmounts.SumGuardIsSound` | lib/backtest/cost-policy.js:531-534 | Checking a rounded double-precision sum is as good as checking the true one |
| `CostAmounts.CalculateSellTaxes` | lib/backtest/cost-policy.js:506-538 | The loop with its guard in double precision computes the exact taxes and total |
| `CostAmounts.TotalIsSum` | lib/backtest/cost-policy.js:506-538 | The tax total is the exact sum of the separately rounded taxes |
| `CostAmounts.SeparateFloors` | lib/backtest/cost-policy.js:506-538 | n separately floored taxes total at most the floor of the summed-rate tax and miss it by at most n−1 |
| `CostAmounts.SeparateCeils` | lib/backtest/cost-policy.js:506-538 | The mirror bound for ceilings |
| `CalendarValidation.AcceptedIffTiles` | lib/backtest/calendar-validation.js:591-744 | Sequence and coverage passes both accept exactly when record i is day from + i for the whole coverage, and every record is in shape, of the calendar's market and identity, with known statuses |
| `CalendarValidation.ValidateSequence` | lib/backtest/calendar-validation.js:591-648 | The one-pass checks accept exactly the strictly ascending lists of acceptable records |
| `CalendarValidation.ValidateCoverage` | lib/backtest/calendar-validation.js:650-744 | No error exactly when every record is inside the coverage and every covered day is present |
| `CalendarValidation.EnumerateCalendarDates` | lib/backtest/calendar-validation.js:299-313 | The guarded loop lists from, from+1, … cut after 40001 days |
| `CalendarValidation.GuardNeverCuts` | lib/backtest/calendar-validation.js:299-313 | The guard never cuts a coverage within 2100–2199 |
| `CalendarValidation.CountTradingDays` | lib/backtest/calendar-validation.js:1018-1032 | The counting loop equals the count of trading records in the window |
| `CalendarValidation.CountIsSize` | lib/backtest/calendar-validation.js:1018-1032 | On ascending records the count is the number of days of the window whose record says there is trading |
| `CalendarValidation.CountSplits` | lib/backtest/calendar-validation.js:1018-1032 | Counts of adjacent windows add up |
| `CalendarValidation.WindowsAddUp` | lib/backtest/calendar-validation.js:1097-1309 | On an accepted calendar warm-up and evaluation counts add up to the number of distinct trading days of the joined window |
| `CalendarValidation.CheckWindowStatuses` | lib/backtest/calendar-validation.js:1034-1080 | No new error exactly when no record of the window is pending, conflicting or an unfinished session |
| `CalendarValidation.ClearIffDecided` | lib/backtest/calendar-validation.js:1034-1080 | On an accepted calendar a window inside the coverage is clear exactly when every day of it has a record saying no trading or trading in a final session |
| `CalendarValidation.ValidateWarmupRange` | lib/backtest/calendar-validation.js:1097-1189 | The warm-up count is that of the days before the feature start; accepted exactly when it suffices and the window is clear |
| `CalendarValidation.ValidateEvaluationRange` | lib/backtest/calendar-validation.js:1191-1309 | The same for the evaluation window, both ends included |
| `CalendarValidation.ValidateCandleDates` | lib/backtest/calendar-validation.js:849-1016 | No error exactly when the market is a known one and the calendar's, a required range, if given, lies in the coverage, and every candle falls on a final trading day of its market |
| `CalendarValidation.ValidateRequestedRange` | lib/backtest/calendar-validation.js:746-829 | No error exactly when the range is in order and lies in the coverage as it stands |
| `CalendarValidation.RangeCoveredIffPresent` | lib/backtest/calendar-validation.js:742-829 | On an accepted calendar a range is covered exactly when every day of it has its record |
| `CalendarValidation.CandleLookupIsOffset` | lib/backtest/calendar-validation.js:831-1016 | On an accepted calendar the lookup map is arithmetic: the candle's record is number date − from |
| `CivilDates.OrderIsDayNumberOrder` | lib/backtest/calendar-validation.js:279-297 | Calendar order is day-number order, and distinct dates have distinct numbers |
| `CivilDates.TextOrderIsDateOrder` | lib/backtest/calendar-validation.js:279-297 | Comparing the ten characters YYYY-MM-DD is comparing the dates, and equal text is the same date |
| `CivilDates.NextDayNumber` | lib/backtest/calendar-validation.js:288-297 | Stepping a civil date by one day, over month and leap-year ends, steps its number by one |
| `CivilDates.SyntheticYearsAreDayRange` | lib/backtest/calendar-validation.js:279-286 | The years 2100 to 2199 are one range of day numbers |
| `TokenManager.SingleFlight` | kb/token.js:135-150 | Over every interleaving no two unfinished requests were sent between the same two revocations; hence at most one more than there were revocations |
| `TokenManager.NewerRequestStays` | kb/token.js:144-150 | Only its own completion or a revocation ends the shared request; a late completion never clears a newer one |
| `TokenManager.CallersShareOutcomes` | kb/token.js:135-150 | A received outcome never changes, all who joined one request receive the same, and a token served from the cache at t was issued by the server with t < expiresAt − 300 s |
| `TokenManager.GetMeans` | kb/token.js:135-150 | A call is served from the cache exactly when it is not forced and more than 300 s are left; else it joins the shared request, or sends one exactly when there is none |
| `TokenManager.ServedIffFresh` | kb/token.js:111-141 | A token issued at t for s seconds (600 if unstated) is served exactly to the unforced calls before t + 1000·s − 300 000 ms |
| `TokenManager.BadAnswerRejects` | kb/token.js:104-126 | A failed answer, no token or an unusable lifetime rejects all who joined and leaves the cache; any other resolves them with the token cached |
| `TokenManager.RevocationSticksIffQuiet` | kb/token.js:158-165 | A token requested before a revocation can be cached again after it if and only if some request was awaiting its answer then |
| `TokenManager.RevokedTokenReturns` | kb/token.js:119-165 | Three events from the start, a call, a revocation and the late answer, end with the token requested before the revocation cached and served |
| `TokenManager.RunSound` | kb/token.js:95-165 | Every interleaving keeps the invariant: shared request unfinished and current, one unfinished request per epoch, cached token issued |
| `TokenManager.StepOnePerEpoch` | kb/token.js:95-165 | Every event keeps one unfinished request per epoch |
| `TokenManager.TokenCache.GetAccessToken` | kb/token.js:135-145 | Serve, join or send: the fields and the caller's reply follow the state machine |
| `TokenManager.TokenCache.IssueToken` | kb/token.js:95-126 | Parsing the answer fills the cache with its expiry, or rejects and leaves it |
| `TokenManager.TokenCache.FinishCall` | kb/token.js:146-150 | The sender clears the promise only if it is still its own |
| `TokenManager.TokenCache.RevokeToken` | kb/token.js:158-165 | Both fields are cleared and the old token returned for revocation |
| `ContinuationPaging.GetExecutions` | kb/broker.js:576-618 | Terminates within the limit, requests no key twice, returns all records of the pages followed in order, and is complete exactly when the chain ended there; for a deterministic broker exactly when it ends within the limit at all |
| `ContinuationPaging.CompleteIffChainEnds` | kb/broker.js:576-618 | For a deterministic broker `truncated` is false iff the chain from the empty key ends within the limit, and then all of it was read |
| `ContinuationPaging.CycleNeverEnds` | kb/broker.js:604-608 | A repeated key means a deterministic chain never ends, so stopping there loses no last page |
| `ContinuationPaging.PageLimit` | kb/broker.js:580-581 | The page limit is the given number of at least one, cut to an integer, and twenty for anything else |
| `ContinuationPaging.RowsHoldPages` | kb/broker.js:588-616 | The chain starts from the empty key and follows each page's own key; the rows of page i come right after those of the pages before it |
| `PerformanceMetrics.CalculatePerformanceMetrics` | lib/backtest/performance-metrics.js:128-364 | Completed exactly for acceptable ledgers, with each figure, annual growth and Sharpe ratio included, meaning what it should; each blocking reason exactly when it applies |
| `PerformanceMetrics.MaxDrawdown` | lib/backtest/performance-metrics.js:238-252 | The one-pass peak loop gives the minimum over all i ≤ j of equity[j]/equity[i] − 1, attained, in (−1, 0] |
| `PerformanceMetrics.CheckCurve` | lib/backtest/performance-metrics.js:163-195 | The point-by-point checks accept exactly strictly dated curves of positive equities |
| `PerformanceMetrics.TallyTrades` | lib/backtest/performance-metrics.js:254-279 | Wins, losses and break-evens count the trades by sign, gross profit minus gross loss is the sum, and each is zero exactly when its count is |
| `PerformanceMetrics.Rates` | lib/backtest/performance-metrics.js:281-321 | Statuses by the signs present; the win rate is wins over trades; the last division never has a zero denominator |
| `PerformanceMetrics.AnnualGrowth` | lib/backtest/performance-metrics.js:212-236 | Absent under two days, marked short under a year; otherwise the rate that, compounded over the years of the curve, is its whole growth, which instantiates the law assumed of the power function at growth and years |
| `PerformanceMetrics.SharpeRatio` | lib/backtest/performance-metrics.js:335-365 | No volatility exactly when all daily returns are equal; otherwise ratio × sample deviation = mean × √252 with a positive deviation |
| `PerformanceMetrics.SpreadAroundMean` | lib/backtest/performance-metrics.js:335-365 | The squared spread around any value exceeds that around the mean by n squared distances: the deviation is taken around the least one |
| `PerformanceMetrics.DailyReturns` | lib/backtest/performance-metrics.js:323-333 | Each return exceeds −1 and together they compound to the whole change of the curve |
| `RuleEvolution.EvolveCycle` | evolve.js:178-253 | The final population, rule by rule and fitness by fitness, is the ranking of generation 30 computed on values from the saved rules and the choices; the recorded fitnesses of every generation are those of its ranking and none of the eight best ever falls; the published list is chosen from that ranking; nothing that existed before is modified |
| `RuleEvolution.GenerationsNeverWorse` | evolve.js:211-228 | From any generation to any later one, each of the eight best fitnesses of the value-level rankings never falls |
| `RuleEvolution.RankedOwnFitness` | evolve.js:211-213 | Every ranked rule carries its own fitness on the samples, and every rule of the population is ranked |
| `RuleRanking.KthBestKept` | evolve.js:211-228 | If the best eight of a ranking lead the next population, the k-th best of the next ranking is at least as fit, for every k ≤ 8 |
| `RuleEvolution.NextGeneration` | evolve.js:216-225 | Forty rules: the eight elite rules themselves, unedited, then for each further place the child its choices breed from its two elite parents |
| `RuleEvolution.RankPopulation` | evolve.js:211-215 | Evaluating and ranking condition objects gives, entry by entry, the ranking of their values |
| `RuleBreeding.Mutate` | evolve.js:117-134 | Edits a fresh copy, no existing condition touched; `RuleBreeding.MutationByRoll` says which edit |
| `RuleBreeding.MutationByRoll` | evolve.js:117-134 | Below 0.4 one condition keeps key and direction and gets a new threshold, below 0.7 one is replaced, below 0.85 a short rule gains one; otherwise a rule of three loses one and any other stays |
| `RuleBreeding.Crossover` | evolve.js:136-146 | Fresh copies of the first condition of each new key, at most three |
| `RuleBreeding.CrossedShape` | evolve.js:136-146 | A crossing has distinct keys, conditions of its parents, and as many as the parents have keys, up to three |
| `RuleBreeding.CrossedFirsts` | evolve.js:136-146 | Of each of the first three keys of the shuffled pool the condition that comes first is kept, in the order of the keys |
| `RuleBreeding.CrossingCanShrink` | evolve.js:136-146 | A crossing has fewer than the documented two conditions if and only if the parents' conditions share one key |
| `RuleBreeding.OneConditionIsReachable` | evolve.js:117-146 | A rule with two keys, one replacing mutation and a crossing with itself, however shuffled, give a rule with one condition |
| `RuleBreeding.MutationKeepsSize` | evolve.js:117-134 | Mutation keeps two or three conditions |
| `RuleBreeding.Evaluate` | evolve.js:99-115 | The counting loop gives the fitness of the numbers of signals and rises |
| `RuleBreeding.FitnessMeans` | evolve.js:91-115 | The fitness scores the rises among the samples on which every condition holds (feature, or zero, above or below its threshold), and is zero below 15 of them or above 55 % of the samples |
| `RuleBreeding.StricterSignalsLess` | evolve.js:91-97 | Raising the threshold of an above condition or lowering that of a below condition never adds a signal |
| `RuleEvolution.Publish` | evolve.js:231-253 | At most six rules, positive and descending fitness, pairwise distinct signatures, and every fit rule is covered by one of them or by a full list at least as fit |
| `RuleRanking.RankedPermutes` | evolve.js:211-213 | Ranking is a permutation |
| `RuleRanking.RankedDescends` | evolve.js:211-213 | Ranking is descending |
| `RollingAverage.SmaFn` | src/nindicators.js:26-35 | At every index and for every n ≥ 1 there is an average exactly if the last n values are all there, and n times it is their sum |
| `RollingAverage.TmaFn` | src/nindicators.js:51 | A triangular average exists exactly when the last 2n − 1 values are all there, and is the mean of the n window means |
| `RollingAverage.TriangularReach` | src/nindicators.js:51 | Why: n full windows reach back 2n − 1 values |
| `CanonicalJson.CanonicalIffSameMeaning` | lib/calendar/calendar-checksum.js:69-90 | Two values have the same canonical form exactly when they mean the same: key order, excluded keys and undefined members at any depth make no difference, everything else does |
| `CanonicalJson.AllMembersSeen` | lib/calendar/calendar-checksum.js:69-90 | Objects with the same keys, none excluded, have one canonical form exactly when each member has, missing ones included |
| `CanonicalJson.OneMoreMemberSeen` | lib/calendar/calendar-checksum.js:80-88 | A further member changes the form exactly when its key is not excluded and its value not undefined |
| `CanonicalJson.TimesAlike` | lib/calendar/calendar-checksum.js:62-67 | Two times are alike exactly when equal or one is HH:MM and the other adds ":00" |
| `CanonicalJson.StripIsCanonical` | lib/calendar/calendar-checksum.js:69-90 | Stripping is idempotent and keeps the meaning |
| `CanonicalJson.KeysAscend` | lib/calendar/calendar-checksum.js:80-88 | The keys of a canonical object are in strictly ascending order |
| `CalendarChecksum.RearrangingIsInvisible` | lib/calendar/calendar-checksum.js:116-152 | Permuting trading days, markets and superseded versions, and exceptions and sources told apart by their sort keys up to canonical form, changes neither canonical form |
| `CalendarChecksum.ExceptionOrderInvisibleIff` | lib/calendar/calendar-checksum.js:96-135 | No reordering of the session exceptions changes the canonical content if and only if exceptions with one date have one canonical form |
| `CalendarChecksum.SourceOrderInvisibleIff` | lib/calendar/calendar-checksum.js:104-152 | No reordering of the sources changes the canonical metadata if and only if sources with one reference and name have one canonical form |
| `CalendarChecksum.ExceptionOrderShows` | lib/calendar/calendar-checksum.js:96-135 | A concrete snapshot: swapping two exceptions of one date with different opening times changes its canonical content |
| `StableSort.FormsForgetOrderIff` | lib/calendar/calendar-checksum.js:96-135 | Sorted stably by a key, the forms of the elements ignore the input order if and only if elements with one key have one form |
| `CalendarChecksum.WithChecksums` | lib/calendar/calendar-checksum.js:213-219 | Refuses exactly other canonicalization versions; otherwise the copy differs only in its checksums, which are the digests of the two forms, and verifies with just those |
| `CalendarChecksum.EditsAreSeen` | lib/calendar/calendar-checksum.js:180-211 | A snapshot carrying another's checksums verifies exactly when every covered member is the same, barring a digest collision on just these forms; a content edit is answered content mismatch, any other metadata mismatch |
| `CalendarChecksum.ContentCovers` | lib/calendar/calendar-checksum.js:113-135 | Content forms are equal exactly when id, version, canonicalization version and coverage mean the same, markets and trading days hold the same texts, and exceptions mean the same one by one in date order |
| `CalendarChecksum.MetadataCovers` | lib/calendar/calendar-checksum.js:137-153 | Metadata forms are equal exactly when sources mean the same in order, and superseded versions (missing read as null) and the verification time do |
| `CalendarChecksum.ExceptionsAscend` | lib/calendar/calendar-checksum.js:96-102 | Exceptions come in ascending order of their dates |
| `CalendarChecksum.SourcesAscend` | lib/calendar/calendar-checksum.js:104-114 | Sources come in ascending order of reference, then name |
| `CalendarChecksum.VerifiedIff` | lib/calendar/calendar-checksum.js:180-211 | A snapshot verifies exactly when its version is the known one and each checksum is absent or the computed one; the first failure is named |
| `CalendarChecksum.ChecksumsNotCovered` | lib/calendar/calendar-checksum.js:116-152 | The stored checksums are no part of what they cover |

## Left out

- `predict` and `trainFromHistory` are atomic steps between runs, as the histories of
  `PredictionLifecycle` have them; `InterleavedSave` treats a save at any await of a run.
  `trainFromHistory` interleaved inside a run is not modelled, and its 24-hour skip is an absent event.
- Timestamps, return percentages, contribution lists, probabilities and texts of a prediction's answer
  are not modelled; nothing above depends on them. Formatting a date never fails.
- The stores' files, locks and temporary names: a store call is done, reported as failed with or without
  its write staying, or cut off by a stop before or after its write; never half written. The list handed out by the store is a copy. Ids are distinct, as
  random identifiers are taken to be.
- Archiving of evaluated predictions (`lib/storage/archive.js`): off by default and never started by the predictor.
- StableSort.BeforeIsOrder: strings compare by character; on characters beyond U+FFFF the program's order by
  UTF-16 code units differs.
- `null`, `undefined` and missing members read alike, except in `CanonicalJson`, where they differ.
- Spellings of one date are equal in a prediction's key; only parsed dates are compared.
- Field-presence, unknown-key, version, mode and fixture checks of the validators are gathered into one flag
  (`wellShaped`, `envelopeOk`) whose value is an input; error texts and field names are not modelled.
- IEEE rounding of prices, weights and metrics: reals stand for doubles.
- PerformanceMetrics.CalculatePerformanceMetrics: over reals no figure overflows to infinity, so the fallbacks for
  non-finite figures are not modelled; powers and roots are taken to be exact.
- GradientStep.LearningMoves: the keys of a feature list are distinct, as those of an object are.
- RuleEvolution.EvolveCycle: sample collection, quantiles, names and saving are not modelled; a random rule is an
  input, so the retry loop that draws it need not end.
- RuleBreeding.Crossover: the result of sorting with a random comparison is any permutation.
- RollingAverage.SmaFn: infinite values are not modelled.
- TokenManager.TokenCache.RevokeToken: the request that follows and its failure change no field and are left out.
- ContinuationPaging.GetExecutions: records are opaque; their mapping to rows is one to one and in order.
- CalendarChecksum.EditsAreSeen: the text of a form and its hash are one uninterpreted digest; lists of strings
  hold strings, and objects list distinct keys.
- CanonicalJson.CanonicalIffSameMeaning: object members are kept in one sorted order; JavaScript's own
  placement of integer-like keys first is not modelled.
- `assertCompatibleVersion`, `netProfit` beyond the safe range and the result objects of the calendar validator:
  they follow one read of the code.
- Express routes, HTTP calls, file and push services, KB authentication, user interfaces, indicator scores and
  message texts: plumbing or constant tables.
