# RiskPulse: verified models of the stateful engines

RiskPulse scores card transactions, raises and escalates fraud alerts, and feeds
both from a Kafka worker. Most of the repository is integration code. This
project models the parts that carry promises over whole runs, in Dafny, and
proves those promises for every input, every run and every reachable state:

| file | engine |
|---|---|
| `Windows.dfy`, `Permutations.dfy`, `Reals.dfy`, `Options.dfy` | shared: sliding windows, order-free quantities, products, options |
| `EscalationPolicy.dfy`, `EscalationRecord.dfy`, `EscalationEngine.dfy` | escalation chain, one record under periodic checks, the whole engine |
| `ThrottleEngine.dfy`, `DeduplicationEngine.dfy`, `AlertLifecycle.dfy`, `AlertManager.dfy` | alert filters, lifecycle and statistics, and their composition |
| `AlertClassification.dfy` | how a score becomes an alert type and rule |
| `ScoreCache.dfy`, `Ensemble.dfy`, `RuleScoring.dfy` | LRU cache with time to live, ensemble score, rule score |
| `Velocity.dfy` | customer velocity profiles and the calculator |
| `ModelRegistry.dfy` | promotion and rollback with an event log |
| `LoginLimiter.dfy` | dashboard login limiter |
| `Pipeline.dfy`, `Consumer.dfy` | stage pipeline with dead-letter queue, Kafka consumer |
| `AvroDecimal.dfy` | Avro decimal bytes |

Each engine is modelled at two levels. A reference takes its verdicts from the complete
history (every accepted alert, every admitted attempt, every transaction ever added).
A machine keeps what the running system keeps (pruned lists, deques, tables, counters),
and lemmas say exactly when the two agree and prove the promises about runs. A class
then holds those lists as fields, and its methods are proved to take the machine's steps.

Conventions. Time is a parameter of every operation: the clock readings the code takes,
in any order, since several methods read the clock before they take their lock. A
theorem that needs the readings not to run backwards says so, and the exact condition
and a failing input stand beside it. Floats are reals, decimals are decimals of the
default context. UUIDs are fresh, so records and alerts that are never deleted are
identified by their position. A locked method is one atomic step. Configuration is a
parameter.

## What the proofs found

- With the shipped limits (100 alerts per minute, storm at 200) the alert-storm
  state can never be entered; `ThrottleEngine.StormReachable` gives the exact
  configurations under which it can.
- A policy that configures a level twice, at or above the level it opens with,
  never times out: `EscalationRecord.CanTimeOutIffDistinct`.
- Two overlapping `start_escalation` calls for one alert leave two live records:
  `EscalationEngine.OverlappingStartsBreak`; the invariant survives exactly when the
  alert is still unmapped at the insertion.
- The `from_level` written to an escalation history is right exactly when the policy
  configures the level left behind once and the number above it at all; a skipped or
  a repeated level is recorded wrongly: `EscalationRecord.LevelUpRecordsSource`.
- A clock reading taken before a lock and used after a later one can break the window
  limits: what was pruned in between may be inside the earlier window again. Each pruned
  list counts as a recount does if and only if nothing pruned from it is in the window:
  `ThrottleEngine.CountsAreExactIff`, `LoginLimiter.DequesAreWindowsIff`,
  `DeduplicationEngine.AnswerIsRecountIff`. `ThrottleEngine.BackwardsReadingAdmits`,
  `LoginLimiter.BackwardsReadingAdmits` and `DeduplicationEngine.BackwardsReadingSlips`
  are inputs that exceed the caps and the spacing. For deduplication it also takes an
  eviction: `DeduplicationEngine.RoomyTableIsExact`.
- An alert that is throttled, or whose description raises (an amount that cannot be
  formatted), still leaves its deduplication key behind, so an equal request can be
  dropped as a duplicate of an alert that was never generated.
  `AlertManager.DuplicateHasAlertIff` says exactly when: if and only if the one request
  that opened the window was throttled or raised before its alert was stored.
  `DuplicateWithoutAlert` and `DuplicateOfRaised` are runs that do it.
- Another account, rule or type shares a request's deduplication key text if and only
  if the rule is absent, empty or named "none", or the account contains a colon, or the
  rule does before its last character: `DeduplicationEngine.KeySharedIff`. Absent, empty
  and "none" rules share every key (`NoneCollides`); a colon at the very end of
  a rule is harmless (`TrailingColonIsHarmless`).
- Clearing the throttle forgets its windows, so each clear can let through as many
  alerts again, and no more: `ThrottleEngine.ClearsMultiplyCaps`, `ClearForgets`.
- Exactly resolved and false-positive alerts have a resolution time in every run if and
  only if the configured table lets no alert leave those statuses again (or the limits
  admit no alert at all): `AlertManager.ResolutionTimesAreExactIff`.
- No score emitted by the scoring pipeline becomes an anomaly alert, because the two
  sides spell the method name differently, and none carries a rule id, because the
  dictionary form drops the details: `AlertClassification.PipelineScoresLoseProvenance`.
- One message on which deserializing raises anything but the two errors the code catches
  (JSON that is not an object, an integer of more than 4300 digits, nesting too deep)
  makes every transaction of its polled batch disappear, and a later commit passes over
  them. So does a poll that raises in the middle of a batch (`Consumer.FailedPollLoses`)
  and a decode error whose report to the metrics client raises.
  `Consumer.CommittedMessagesAreAccounted` gives the exact condition, and
  `CommittedIffDecodable` the one when both clients work.
- Cleaning and normalization return whatever record their component returns; when an
  injected component returns none (the shipped ones always return a dictionary), the
  transaction is reported as dead lettered without a queue entry.
  `Pipeline.VanishesIffWithheld` and `Pipeline.DlqCountIsExactIff` give the exact
  conditions.
- Risk classes are monotone in the score even when the thresholds are out of order:
  `Ensemble.RiskIsMonotone`.
- Velocity profiles are evicted by insertion order, not least recently used as the
  docstring of `_get_or_create_profile` says: `Velocity.OrderIsInsertion`,
  `EvictionIsNotByUse`. The model follows the code.
- Velocity metrics equal a recount of everything added if and only if nothing the
  deque has popped is still inside the 24 hours: `Velocity.MetricsAreExactIff`.
- The values -2^(8k-1) take one byte more than Avro needs:
  `AvroDecimal.LengthIsMinimalExceptPowers`.
- Scaling an Avro decimal rounds to the 28 digits of the decimal context: a reader sees
  the scaled value exactly if and only if it is whole and has at most 28 significant
  digits (`AvroDecimal.DecimalRoundTripIff`). 10^28 + 1 is read as 10^28, and a fraction
  of 29 nines is rounded up to 1 instead of cut off (`LongIntegerIsRounded`,
  `LongFractionIsRoundedUp`).

## Model

| member | source | states |
|---|---|---|
| `EscalationPolicy.NextLevelFinds` | src/alerting/escalation_engine.py:78-84 | the next level is the least configured level above the current one, none exactly at the top; a level configured twice is followed by itself |
| `EscalationPolicy.ChainStep` | src/alerting/escalation_engine.py:71-84 | with distinct levels one step up leaves one level fewer to go and takes exactly the current timeout out of the remaining sum |
| `EscalationPolicy.ChainEnd` | src/alerting/escalation_engine.py:71-84 | at the top level one level and its own timeout remain |
| `EscalationRecord.RankStep` | src/alerting/escalation_engine.py:514-568 | a due check raises an unacknowledged record by exactly one step of the sorted chain, or times it out at the top |
| `EscalationRecord.RankIsDueCount` | src/alerting/escalation_engine.py:367-379 | after any checks the record stands as many steps up as checks found it due, and is timed out after exactly as many due checks as there are levels at or above its opening level |
| `EscalationRecord.TimesOutInTime` | src/alerting/escalation_engine.py:503-568 | checked at least every P, some check no later than opening + sum of timeouts + n·P finds it timed out |
| `EscalationRecord.TimesOutNoEarlier` | src/alerting/escalation_engine.py:503-568 | however often it is checked, a record is not timed out before its opening plus all the timeouts of its chain |
| `EscalationRecord.CanTimeOutIffDistinct` | src/alerting/escalation_engine.py:78-84 | a record can time out if and only if no level at or above its opening level is configured twice |
| `EscalationRecord.LevelUpRecordsSource` | src/alerting/escalation_engine.py:570-579 | the recorded source level is the level left behind if and only if that level is configured once and the number above it is configured |
| `EscalationEngine.ReachableInv` | src/alerting/escalation_engine.py:361-394 | in every reachable state the alert index holds exactly the unresolved records, one per alert, its keys are those of the active alerts, and exactly PENDING and ESCALATED records have a deadline |
| `EscalationEngine.ResolvedForever` | src/alerting/escalation_engine.py:467-501 | a resolved record never changes again in any run |
| `EscalationEngine.RecordIsIsolated` | src/alerting/escalation_engine.py:503-524 | a run of the whole engine acts on a record nobody acknowledges or resolves exactly as its timeout checks alone |
| `EscalationEngine.EscalationTimesOut` | src/alerting/escalation_engine.py:340-415 | bounded liveness of the engine: an alert started in any reachable state and left alone is TIMED_OUT within the bound and stays so |
| `EscalationEngine.AcknowledgedStays` | src/alerting/escalation_engine.py:417-465 | in a reachable state acknowledging a mapped alert sets its record to acknowledged at its level without a deadline, and no later run without acknowledging or resolving it moves the record; all other records stay |
| `EscalationEngine.ResolvedCloses` | src/alerting/escalation_engine.py:467-501 | resolving sets the record to resolved without a deadline for the rest of every run, and removes the alert and nothing else from both maps |
| `EscalationEngine.SelectAnswers` | src/alerting/escalation_engine.py:331-357 | a start is answered by the first policy with the given id, or without an id by the first enabled one that lists the severity, and by none if there is none |
| `EscalationEngine.StartOpens` | src/alerting/escalation_engine.py:340-415 | a start of an unmapped alert opens one pending record at the level listed first, due 60 seconds per minute of its timeout later; otherwise it changes nothing |
| `EscalationEngine.CheckMoves` | src/alerting/escalation_engine.py:503-568 | a check leaves alone what is not pending or escalated or not yet due; a due record moves to the least configured level above its own with that level's timeout, or times out at the top |
| `EscalationEngine.CheckWithoutPolicy` | src/alerting/escalation_engine.py:526-534 | a record whose policy is not configured is left alone |
| `EscalationEngine.UpgradedAre` | src/alerting/escalation_engine.py:503-524 | a check reports exactly the records it raised, in order |
| `EscalationEngine.EnterKeepsInvIff` | src/alerting/escalation_engine.py:391-394 | the insertion keeps the invariant if and only if the alert is still unmapped |
| `EscalationEngine.OverlappingStartsBreak` | src/alerting/escalation_engine.py:362-394 | two starts of one alert that both pass the check break the invariant and leave two distinct unresolved records of that alert |
| `EscalationEngine.Engine.StartEscalation` | src/alerting/escalation_engine.py:340-415 | opens a record, or returns the existing one, or none without an applicable policy; the new state is the specified one and keeps the invariant |
| `EscalationEngine.Engine.AcknowledgeAlert` | src/alerting/escalation_engine.py:417-465 | acknowledges the mapped record only, keeps the invariant |
| `EscalationEngine.Engine.ResolveAlert` | src/alerting/escalation_engine.py:467-501 | closes the mapped record and removes it from both maps, keeps the invariant |
| `EscalationEngine.Engine.CheckAll` | src/alerting/escalation_engine.py:503-568 | the record-by-record loop equals checking all records at once and reports exactly those that moved up, in order |
| `ThrottleEngine.CountsAreExactIff` | src/alerting/alert_manager.py:382-420 | in every run and at every reading each pruned list counts as a recount of all accepted alerts does if and only if nothing pruned from it is still inside its window |
| `ThrottleEngine.VerdictIsRecount` | src/alerting/alert_manager.py:376-428 | while the readings do not run backwards the verdict from the pruned lists is the one from recounting the whole accepted history |
| `ThrottleEngine.VerdictMeans` | src/alerting/alert_manager.py:376-428 | so a check is refused for a storm, for the alerts accepted in the last 60 s, of the account in the last 3600 s, and of a named rule in the last 3600 s, in this order and at the configured numbers, and accepted otherwise |
| `ThrottleEngine.CapsInSeconds` | src/alerting/alert_manager.py:376-428 | in every clear-free stretch of such a run any 60 s and any 3600 s hold at most the configured numbers of accepted alerts |
| `ThrottleEngine.StepMeans` | src/alerting/alert_manager.py:376-448 | a check logs exactly its acceptance and latches a triggered storm for 300 s; polling ends a latch that has run out, resetting any, clearing everything |
| `ThrottleEngine.EveryWindowCapped` | src/alerting/alert_manager.py:376-428 | after any run, as long as nothing is cleared and no check finds something pruned inside its windows, every 60 s window of accepted alerts holds at most the total cap (and the storm threshold) and every 3600 s window at most the account and rule caps |
| `ThrottleEngine.OrderedRunsAreCapped` | src/alerting/alert_manager.py:376-448 | in particular over every run whose readings do not run backwards, clears included |
| `ThrottleEngine.BackwardsReadingAdmits` | src/alerting/alert_manager.py:382-426 | with a total cap of two, checks at 0, 0, 60 and then 59 all pass and the window that ends at 59 holds three |
| `ThrottleEngine.ClearsMultiplyCaps` | src/alerting/alert_manager.py:376-448 | over every run in which no check finds something pruned inside its windows, no window of all accepted alerts holds more than its cap times one plus the number of clears |
| `ThrottleEngine.ClearForgets` | src/alerting/alert_manager.py:442-448 | with a total cap of one, check, clear, check at one instant accepts two |
| `ThrottleEngine.StormAdmitsNothing` | src/alerting/alert_manager.py:388-407 | after a trigger at t nothing is admitted before t+300 in any run without reset or clear |
| `ThrottleEngine.StormReachable` | src/alerting/alert_manager.py:392-407 | the storm state is reachable if and only if the total cap is positive and above the threshold and the threshold can be filled; the shipped limits do not reach it |
| `ThrottleEngine.NeverStorms` | src/alerting/alert_manager.py:392-407 | under all other configurations no run ever enters the storm state |
| `ThrottleEngine.Engine.ShouldThrottle` | src/alerting/alert_manager.py:376-428 | at any reading the stored lists give the machine's verdict and its next state, pruning exactly the lists the check gets to |
| `ThrottleEngine.Engine.IsStormActive` | src/alerting/alert_manager.py:430-435 | reading the latch clears it once the cooldown has passed |
| `ThrottleEngine.Engine.Reset` | src/alerting/alert_manager.py:437-440 | calms the storm latch and nothing else |
| `ThrottleEngine.Engine.ClearAll` | src/alerting/alert_manager.py:442-448 | returns to the initial state |
| `DeduplicationEngine.AnswerIsRecountIff` | src/alerting/alert_manager.py:247-283 | in every run and at every reading the table answers as the complete log would if and only if it finds the key or has forgotten no acceptance of it that is still inside the window |
| `DeduplicationEngine.SpacedIff` | src/alerting/alert_manager.py:247-283 | accepted alerts with equal keys are at least one window apart if and only if no call was accepted while the table had forgotten a live acceptance of its key |
| `DeduplicationEngine.AcceptedAreSpaced` | src/alerting/alert_manager.py:247-283 | while the readings do not run backwards the table answers as the complete log and accepted alerts with equal keys are a window apart, whatever was evicted |
| `DeduplicationEngine.AnswerMeans` | src/alerting/alert_manager.py:247-273 | so a call is a duplicate, and not logged, if and only if an alert with its key was accepted less than a window before |
| `DeduplicationEngine.AskIs` | src/alerting/alert_manager.py:247-283 | an acceptance stores its key and time; keys are dropped only when the table exceeds its maximum, only expired ones, and then all of those |
| `DeduplicationEngine.RoomyTableIsExact` | src/alerting/alert_manager.py:247-283 | with room for all its keys the same holds under any readings |
| `DeduplicationEngine.BackwardsReadingSlips` | src/alerting/alert_manager.py:247-283 | a key evicted at the end of its window is accepted again at a reading in the middle of it |
| `DeduplicationEngine.RawKeyIdentifies` | src/alerting/alert_manager.py:242-245 | a request that is not ambiguous shares its key text with another if and only if account, rule and type are all equal |
| `DeduplicationEngine.KeySharedIff` | src/alerting/alert_manager.py:242-245 | some other account, rule or type shares the key text if and only if the rule text is "none", the account has a colon, or the rule text has one before its end |
| `DeduplicationEngine.NoneCollides` | src/alerting/alert_manager.py:242-245 | an absent rule, an empty one and one named "none" share every key |
| `DeduplicationEngine.RawKeyMeans` | src/alerting/alert_manager.py:242-245 | the key text is account, rule (or none) and type name between colons |
| `DeduplicationEngine.ColonsCollide` | src/alerting/alert_manager.py:242-245 | for all texts, account a:b with rule c shares its keys with account a and rule b:c |
| `DeduplicationEngine.TrailingColonIsHarmless` | src/alerting/alert_manager.py:242-245 | a colon at the end of an otherwise colon-free rule makes nothing ambiguous |
| `DeduplicationEngine.Engine.IsDuplicate` | src/alerting/alert_manager.py:247-273 | at any reading the stored table gives the machine's answer and next table; after an acceptance it is within bounds or all its keys are live |
| `DeduplicationEngine.Engine.EvictExpired` | src/alerting/alert_manager.py:275-283 | deletes exactly the expired keys |
| `AlertLifecycle.ResolvedExactlyIff` | src/alerting/alert_manager.py:688-714 | over all sequences of allowed moves from a new alert, exactly a terminal status has a resolution time, if and only if the table reopens no alert |
| `AlertLifecycle.ReopensIffReachable` | src/alerting/alert_manager.py:948-960 | the finite test on the table holds if and only if some terminal status an alert can reach by any number of moves allows one that is not terminal |
| `AlertLifecycle.MoveKeepsSettled` | src/alerting/alert_manager.py:704-714 | under a table that reopens none, every move keeps an alert early and without a resolution time, or ended and with one |
| `AlertLifecycle.ShippedTableIsAbsorbing` | src/alerting/alert_manager.py:948-960 | the default and the configured transition table never leave a terminal status |
| `AlertLifecycle.AllowedMeans` | src/alerting/alert_manager.py:948-960 | a configured row that is not empty decides alone; otherwise an open alert can be investigated or ended, an investigated one ended or put back, and an ended one nothing |
| `AlertLifecycle.ReopeningKeepsResolution` | src/alerting/alert_manager.py:704-714 | with a way back from resolved, a new alert resolved and reopened is open with a resolution time |
| `AlertLifecycle.UnusedReopeningIsHarmless` | src/alerting/alert_manager.py:948-960 | a table with a way out of a terminal status that no alert reaches is not absorbing and still reopens none |
| `AlertLifecycle.GeneratedStaysAccurate` | src/alerting/alert_manager.py:191-196 | recording a new alert keeps all counters equal to the true counts |
| `AlertLifecycle.ChangeStaysAccurate` | src/alerting/alert_manager.py:210-213 | recording a status change keeps them equal, and the clamp at zero never engages |
| `AlertLifecycle.AccurateTotals` | src/alerting/alert_manager.py:154-182 | the totals over status, severity and type all equal the number of stored alerts |
| `AlertManager.GeneratedAlertsRespectAllFilters` | src/alerting/alert_manager.py:563-617 | in any run whose clock does not run backwards the alerts generated satisfy at once: equal keys one window apart, all throttle caps (counting those that raised while being built), and none for an account within the cooldown of a move of one of its alerts to investigating, resolved or false positive |
| `AlertManager.SuppressedIff` | src/alerting/alert_manager.py:563-571 | in a well-timed run a request is suppressed if and only if an alert of its account was moved to investigating, resolved or false positive within the cooldown |
| `AlertManager.VerdictFromHistory` | src/alerting/alert_manager.py:563-617 | the whole verdict of a request from the histories: suppressed, else a duplicate, else throttled, else an alert, unless the call raises on the way |
| `AlertManager.KeyMeans` | src/alerting/alert_manager.py:242-245 | with a digest that keeps texts apart an unambiguous request shares its key exactly with those of equal account, rule and type |
| `AlertManager.GenerationMeans` | src/alerting/alert_manager.py:593-620 | a request adds one open alert with its own account, rule, type and severity exactly when the alert is stored |
| `AlertManager.TransitionMeans` | src/alerting/alert_manager.py:688-731 | an allowed transition sets the status, a resolution time when it ends the alert, and the account's suppression unless it reopens it; any other changes nothing |
| `AlertManager.StatisticsAreAccurate` | src/alerting/alert_manager.py:564-620 | in every run the counters are the true counts and generated + suppressed + deduplicated is the number of generate calls that do not raise before an alert is stored |
| `AlertManager.EachTotalMeans` | src/alerting/alert_manager.py:564-620 | generated counts the stored alerts, suppressed the requests suppressed or throttled, deduplicated the duplicates |
| `AlertManager.ResolutionTimesAreExact` | src/alerting/alert_manager.py:688-731 | under a table that reopens no alert exactly resolved and false-positive alerts have a resolution time, in every run |
| `AlertManager.ResolutionTimesAreExactIff` | src/alerting/alert_manager.py:530-731 | they do in all well-timed runs if and only if the table reopens no alert or the limits admit none; otherwise a run of one alert shows it |
| `AlertManager.ShippedResolutionTimesAreExact` | src/alerting/alert_manager.py:948-960 | under the default and the shipped transition table they do in every run |
| `AlertManager.ThrottleSeesGenerated` | src/alerting/alert_manager.py:583-620 | in every run the throttle's history is exactly the alerts created and those that raised while being built |
| `AlertManager.DuplicateHasOneOpener` | src/alerting/alert_manager.py:572-591 | in every well-timed run a duplicate has exactly one earlier request with its key in the window that got past suppression and deduplication |
| `AlertManager.DuplicateHasAlertIff` | src/alerting/alert_manager.py:572-617 | an alert with its key was generated within the window if and only if that request was neither throttled nor raised before its alert was stored |
| `AlertManager.DuplicateWithoutAlert` | src/alerting/alert_manager.py:572-591 | a three-request run whose last request is a duplicate although the opener was throttled and no alert with its key exists |
| `AlertManager.DuplicateOfRaised` | src/alerting/alert_manager.py:572-617 | a run whose opener raises while the alert is built: no alert exists and the same request again is a duplicate |
| `AlertManager.SeenIsRecorded` | src/alerting/alert_manager.py:572-617 | the keys ever remembered are exactly those of requests past the first two filters, and the alerts exactly those of the ones neither throttled nor raised before being stored |
| `AlertManager.ThrottledKeyIsRemembered` | src/alerting/alert_manager.py:572-591 | after a throttled request of any run the same request within the window is a duplicate, unless suppressed first |
| `AlertManager.Suppression.Add` | src/alerting/alert_manager.py:312-315 | the account is suppressed from now on |
| `AlertManager.Suppression.Asks` | src/alerting/alert_manager.py:322-332 | suppressed exactly within the cooldown of the last entry; an expired entry is forgotten |
| `AlertManager.Manager.GenerateAlert` | src/alerting/alert_manager.py:530-634 | at any readings the three engines in sequence give the specified outcome and next state, wherever the call raises |
| `AlertManager.Manager.TransitionAlert` | src/alerting/alert_manager.py:668-741 | moves the alert exactly when the table allows it, and feeds suppression and statistics |
| `AlertClassification.DominantLeads` | src/alerting/alert_manager.py:837-856 | the dominant method beats every successful one and is one of them unless none contributes |
| `AlertClassification.LeaderMeans` | src/alerting/alert_manager.py:837-848 | the leader is the first successful entry that weighs most, if more than zero, and otherwise the ensemble |
| `AlertClassification.KindMeans` | src/alerting/alert_manager.py:850-856 | the names rule_engine, anomaly_detection and ml_model give their types and every other name an ensemble alert |
| `AlertClassification.RuleIdMeans` | src/alerting/alert_manager.py:879-889 | the rule is the first one of the first successful rule-engine entry that names any |
| `AlertClassification.EmittedMeans` | src/fraud_detection/scoring_pipeline.py:76-102 | each score is written under its method's name with score times weight rounded to a millionth, and without details |
| `AlertClassification.DetermineAlertType` | src/alerting/alert_manager.py:837-856 | the loop finds the dominant method's alert type |
| `AlertClassification.PipelineScoresLoseProvenance` | src/fraud_detection/scoring_pipeline.py:76-102 | no emitted score becomes an anomaly alert or carries a rule |
| `ScoreCache.OrderIsLastTouch` | src/fraud_detection/scoring_pipeline.py:105-150 | in every run the cache order is the order of last touch and the size never exceeds the maximum |
| `ScoreCache.ContentsAreLastPuts` | src/fraud_detection/scoring_pipeline.py:116-150 | every entry is the last put of its key with that put's time; hits + misses is the number of gets since the last clear |
| `ScoreCache.HitReturnsLastPut` | src/fraud_detection/scoring_pipeline.py:116-130 | a hit returns the score last put under the key, flagged cached, at most ttl old |
| `ScoreCache.StoredIff` | src/fraud_detection/scoring_pipeline.py:105-150 | in every run a key is stored if and only if it was put and since its last put nothing cleared it, invalidated it, found it expired, or displaced it as the least recently touched of a full cache |
| `ScoreCache.HitsIff` | src/fraud_detection/scoring_pipeline.py:116-130 | a get hits if and only if that holds and the last put is at most ttl old |
| `ScoreCache.ClearedMisses` | src/fraud_detection/scoring_pipeline.py:142-150 | never after a clear, or an invalidation of the key, since its last put |
| `ScoreCache.HitsAreCounted` | src/fraud_detection/scoring_pipeline.py:116-130 | the hit counter is the number of gets since the last clear that hit |
| `ScoreCache.RetainedUntilOvertaken` | src/fraud_detection/scoring_pipeline.py:132-140 | a touched key that is not removed and has not expired is never evicted while fewer than the maximum number of distinct other keys have been touched since |
| `ScoreCache.LruCache.Lookup` | src/fraud_detection/scoring_pipeline.py:116-130 | answers as the plain history of puts says, deletes an expired entry, moves a hit to the end |
| `ScoreCache.LruCache.Insert` | src/fraud_detection/scoring_pipeline.py:132-140 | stores as most recent, dropping the least recently touched when full |
| `ScoreCache.LruCache.Discard` | src/fraud_detection/scoring_pipeline.py:142-144 | removes one key |
| `ScoreCache.LruCache.ClearAll` | src/fraud_detection/scoring_pipeline.py:146-150 | empties the cache and its counters |
| `Ensemble.ScoreIsMean` | src/fraud_detection/scoring_pipeline.py:473-488 | with positive weight among successes the score is the exact weighted mean, between the smallest and largest successful score, so the clamp never acts |
| `Ensemble.ScoreMeans` | src/fraud_detection/scoring_pipeline.py:473-488 | for any results the score is the weighted mean of the successes cut to [0, 1], and zero when they weigh nothing |
| `Ensemble.ScoreIsMonotone` | src/fraud_detection/scoring_pipeline.py:473-488 | raising any scores never lowers the ensemble score |
| `Ensemble.ScoreIsOrderFree` | src/fraud_detection/scoring_pipeline.py:473-488 | reordering the results changes nothing |
| `Ensemble.FailuresAreIgnored` | src/fraud_detection/scoring_pipeline.py:473-488 | adding a failed method changes nothing |
| `Ensemble.CompleteIs` | src/fraud_detection/scoring_pipeline.py:655-702 | the completed list holds each method once: the results that arrived and a failure for every other |
| `Ensemble.MissingFails` | src/fraud_detection/scoring_pipeline.py:660-700 | a method that did not report is listed as failed, with score zero and its own weight |
| `Ensemble.AsyncEqualsSync` | src/fraud_detection/scoring_pipeline.py:655-709 | for any subset of results the asynchronous score equals the synchronous one with the rest failed, over exactly three methods |
| `Ensemble.RiskIsMonotone` | src/fraud_detection/scoring_pipeline.py:490-498 | higher scores never fall into a lower risk class, for any thresholds |
| `Ensemble.ClassMeans` | src/fraud_detection/scoring_pipeline.py:490-498 | critical from its threshold on, else high from its own, else medium from its own, else low |
| `RuleScoring.ScoresAreOrderFree` | src/fraud_detection/rule_engine.py:890-921 | combined severity, confidence and rule score do not depend on match order |
| `RuleScoring.MoreMatchesNeverLower` | src/fraud_detection/rule_engine.py:890-921 | a further match lowers none of them, severity is at least the highest match's, and all stay in range, rounding included |
| `RuleScoring.SeverityMeans` | src/fraud_detection/rule_engine.py:890-902 | the severity of the gravest match, one higher for each full tier of further matches when escalation is on, up to critical |
| `RuleScoring.NoisyOrMeans` | src/fraud_detection/rule_engine.py:904-912 | the confidence is one minus the product of one minus each confidence, to within half a unit of the fourth decimal |
| `RuleScoring.RuleScoreMeans` | src/fraud_detection/rule_engine.py:914-921 | half the confidence, 0.1 for each step of the gravest severity and 0.04 for each category up to five, to within the two roundings |
| `RuleScoring.Round4Range` | src/fraud_detection/rule_engine.py:912-921 | rounding to four decimals keeps [0,1] and moves a score by at most half a unit |
| `RuleScoring.RoundingMeans` | src/fraud_detection/rule_engine.py:912-921 | rounding gives the nearest ten-thousandth, of two the even one |
| `RuleScoring.CombineConfidence` | src/fraud_detection/rule_engine.py:904-912 | the running product computes the noisy-OR |
| `Velocity.MetricsAreExactIff` | src/enrichment/velocity_calculator.py:153-231 | at any instant all metrics equal a recount over every transaction ever added if and only if no transaction popped so far is within 24 hours of it |
| `Velocity.LostAndKept` | src/enrichment/velocity_calculator.py:153-231 | everything ever added is what was popped followed by the deque, in order |
| `Velocity.MetricsAreExact` | src/enrichment/velocity_calculator.py:153-231 | at the latest instant seen all counts, sums, merchant counts, average and maximum equal a recount over every transaction ever added, in whatever order they came |
| `Velocity.MetricsMean` | src/enrichment/velocity_calculator.py:170-225 | the same field by field: counts and sums of the last 60, 300, 3600 and 86400 seconds, distinct named merchants of the last hour and day, average and attained maximum of the last hour, of all transactions ever added |
| `Velocity.CountsAndSums` | src/enrichment/velocity_calculator.py:182-209 | the four counts and sums of any list of transactions |
| `Velocity.MerchantsAverageMaximum` | src/enrichment/velocity_calculator.py:210-223 | the merchant counts, average and maximum of any list of transactions |
| `Velocity.RunStartsInWindow` | src/enrichment/velocity_calculator.py:227-231 | after every addition or evaluation the deque starts inside the maximum window |
| `Velocity.LateEvaluationDiffers` | src/enrichment/velocity_calculator.py:227-231 | an input at which they differ: an earlier instant after a late arrival |
| `Velocity.ProfilesBounded` | src/enrichment/velocity_calculator.py:312-329 | the calculator never tracks more than the maximum number of customers |
| `Velocity.BatchIsolatesCustomers` | src/enrichment/velocity_calculator.py:436-445 | from any state, in an interleaved batch with room for its customers beside those already tracked, each gets exactly the results of its own transactions alone |
| `Velocity.BatchMetricsAreExact` | src/enrichment/velocity_calculator.py:260-310 | in such a batch on a fresh calculator, a transaction with its customer's latest timestamp is measured against all of that customer's transactions so far and no one else's |
| `Velocity.ProfileSinceInsertion` | src/enrichment/velocity_calculator.py:260-329 | for every limit, a profile is the run of its own customer's operations since it was last created |
| `Velocity.MetricsSinceInsertion` | src/enrichment/velocity_calculator.py:260-329 | for every limit, a transaction is measured against its customer's transactions since the profile was created, if and only if that profile has popped nothing of the last 24 hours |
| `Velocity.EvaluationMeans` | src/enrichment/velocity_calculator.py:260-329 | an evaluation reports a missing customer, unparsable fields or no room without any effect, and otherwise feeds and measures the customer's profile alone, at its timestamp unless that is zero, evicting the oldest profile when full |
| `Velocity.BatchResultAt` | src/enrichment/velocity_calculator.py:436-445 | each result of a batch is that of its transaction after the ones before it |
| `Velocity.OrderIsInsertion` | src/enrichment/velocity_calculator.py:312-329 | profiles stand in the order of their last creation, which is the order of eviction |
| `Velocity.EvictionIsNotByUse` | src/enrichment/velocity_calculator.py:312-329 | with room for two, the third customer displaces the one measured last |
| `Velocity.Profile.AddTransaction` | src/enrichment/velocity_calculator.py:153-168 | appends and prunes from the front |
| `Velocity.Profile.ComputeMetrics` | src/enrichment/velocity_calculator.py:170-225 | the metrics of the pruned deque, equal to a full recount at the latest instant |
| `Velocity.Profile.EvictExpired` | src/enrichment/velocity_calculator.py:227-231 | pops expired records from the front only |
| `Velocity.SortIntoWindows` | src/enrichment/velocity_calculator.py:182-223 | the window lists filled in one loop give the recount |
| `Velocity.VelocityCalculator.GetOrCreateProfile` | src/enrichment/velocity_calculator.py:312-329 | finds or creates the profile, evicting the one inserted first when full |
| `Velocity.VelocityCalculator.EvaluateOne` | src/enrichment/velocity_calculator.py:260-310 | changes one profile and returns its metrics, or an error without touching any |
| `Velocity.VelocityCalculator.EvaluateBatch` | src/enrichment/velocity_calculator.py:436-445 | the results and profiles are those of evaluating the transactions one after the other, in order |
| `ModelRegistry.HistoryExplainsStages` | src/fraud_detection/model_registry.py:357-466 | in every reachable registry each model has at most one PRODUCTION version, its stages are the replay of the promotion history from all-DEVELOPMENT, and each entry's source stage is the replayed one |
| `ModelRegistry.RegistrationMeans` | src/fraud_detection/model_registry.py:246-291 | a new version is added last, in DEVELOPMENT and inactive, and nothing else changes |
| `ModelRegistry.PromotionMeans` | src/fraud_detection/model_registry.py:336-398 | a promotion of a known version puts it in the target stage, archives a production version it displaces, leaves every other version and model as it is, and logs exactly one entry with the stage it came from |
| `ModelRegistry.RollbackMeans` | src/fraud_detection/model_registry.py:400-466 | a rollback does what promoting the last updated archived version (of several the first registered) to production does, and nothing without one |
| `ModelRegistry.RollbackIsPromotion` | src/fraud_detection/model_registry.py:409-444 | a rollback is a promotion of the most recently archived version |
| `ModelRegistry.RollbackUndoesPromotion` | src/fraud_detection/model_registry.py:363-444 | with a strictly increasing clock a rollback right after promoting v2 over v1 restores every stage but that of v2, which is archived, and leaves all other models as they were |
| `ModelRegistry.TwoRollbacksCancel` | src/fraud_detection/model_registry.py:409-444 | with a production and an archived version two rollbacks restore every stage of every model |
| `ModelRegistry.ModelStore.RegisterModel` | src/fraud_detection/model_registry.py:246-291 | adds a DEVELOPMENT version, or refuses a known one |
| `ModelRegistry.ModelStore.PromoteModel` | src/fraud_detection/model_registry.py:336-398 | the archiving loop and the move give the specified next state |
| `ModelRegistry.ModelStore.RollbackLatest` | src/fraud_detection/model_registry.py:400-466 | one scan finds the production and the most recently archived version; the next state is the specified one |
| `LoginLimiter.DequesAreWindowsIff` | dashboards/streamlit/app.py:142-152 | in every run and at every reading a popped deque is the window of all admitted attempts if and only if nothing popped earlier is inside it and nothing older stands behind a newer attempt |
| `LoginLimiter.AnswerIsRecount` | dashboards/streamlit/app.py:142-162 | while the readings do not run backwards the deques answer as the complete log would |
| `LoginLimiter.AdmissionMeans` | dashboards/streamlit/app.py:142-162 | so an attempt is admitted and logged if and only if fewer than 30 were admitted in the last 60 s and, for a known user, fewer than 5 of its own |
| `LoginLimiter.CapsInSeconds` | dashboards/streamlit/app.py:142-162 | any 60 s of such a run hold at most 30 admitted attempts and 5 of one known user |
| `LoginLimiter.EveryWindowCapped` | dashboards/streamlit/app.py:142-162 | as long as no call finds something popped inside its windows, no 60 s window holds more than 30 admitted attempts, or 5 of one known user |
| `LoginLimiter.OrderedIsUnbroken` | dashboards/streamlit/app.py:142-152 | readings that do not run backwards never do find that |
| `LoginLimiter.BackwardsReadingAdmits` | dashboards/streamlit/app.py:142-162 | 30 attempts at 0, one at 60 and one at a reading of 59.9 are all admitted, and the window that ends at 59.9 holds 31 |
| `LoginLimiter.RefusedUntil` | dashboards/streamlit/app.py:153-158 | with readings in order, whatever comes meanwhile, the user is refused at every instant before the blocking ends |
| `LoginLimiter.AnswerIsExact` | dashboards/streamlit/app.py:153-162 | with readings in order and nothing else admitted, an attempt after the answered number of seconds is admitted, and one second earlier it is not |
| `LoginLimiter.PopExpired` | dashboards/streamlit/app.py:145-152 | the loop pops expired attempts from the front only |
| `LoginLimiter.Limiter.Answer` | dashboards/streamlit/app.py:142-162 | at any reading the stored deques give the machine's answer and next state |
| `Pipeline.BatchConserves` | src/pipeline_orchestrator.py:267-418 | under any policies successes, dead letters and withheld records add up to the batch, and every failure is one of the last two |
| `Pipeline.FateMeans` | src/pipeline_orchestrator.py:284-353 | the first stage that does not pass the record on decides its fate: a rejection, an error under HALT, an error whose skipping raises, or no record; a record passed on six times succeeds unless marking it raises |
| `Pipeline.ResultMeans` | src/pipeline_orchestrator.py:284-353 | success is reported alone, every other fate as a failure sent to the queue, and exactly a dead one leaves a letter, with its cause |
| `Pipeline.DlqCountIsExactIff` | src/pipeline_orchestrator.py:355-418 | the reported dead-letter count is the growth of the queue if and only if cleaning and normalization withhold no record of the batch |
| `Pipeline.VanishesIffWithheld` | src/pipeline_orchestrator.py:267-353 | a record fails without a dead letter if and only if the cleaner or the normalizer returns none for it and every stage before passes it on or fails under SKIP |
| `Pipeline.WithheldRecordIsMiscounted` | src/pipeline_orchestrator.py:485-504 | a valid record for which an injected cleaner returns none is reported and counted as dead lettered, and is not in the queue |
| `Pipeline.Orchestrator.HandleStageError` | src/pipeline_orchestrator.py:587-606 | HALT queues and stops, SKIP passes on |
| `Pipeline.Orchestrator.RunStage` | src/pipeline_orchestrator.py:433-581 | one stage queues exactly the records it rejects or halts |
| `Pipeline.Orchestrator.ProcessRecord` | src/pipeline_orchestrator.py:267-353 | the result and the single queue entry, if any, are those of the record's fate |
| `Pipeline.Orchestrator.ProcessBatch` | src/pipeline_orchestrator.py:355-418 | succeeded + failed = total, dlq_count = failed, one result per record, and the queue grows by exactly the dead letters in order |
| `Consumer.CommittedMessagesAreAccounted` | src/ingestion/kafka_consumer.py:224-255 | in every run each polled offset ends exactly once, counters and queue are exactly the endings, and an offset is a success, a dead letter, a counted decode error or a null if and only if its batch did not skip it by raising and it is no object that cleaning or normalization withholds |
| `Consumer.CommittedIffDecodable` | src/ingestion/kafka_consumer.py:224-255 | when the Kafka and metrics clients do not raise, all committed offsets are so accounted for if and only if none of those messages raises in deserializing or is withheld |
| `Consumer.SkippedMeans` | src/ingestion/kafka_consumer.py:358-394 | a batch skips everything when polling raised, and otherwise from the first message that raises: all later ones, the objects before it, and itself unless it is a counted decode error |
| `Consumer.EndingMeans` | src/ingestion/kafka_consumer.py:224-255 | how an offset ends that its batch did not skip |
| `Consumer.OffsetsMean` | src/ingestion/kafka_consumer.py:224-255 | a batch moves the poll position past what it took and commits there if and only if it got to the pipeline and its commit succeeds; a successful commit moves to the poll position |
| `Consumer.TakenMeans` | src/ingestion/kafka_consumer.py:323-356 | a batch takes what is delivered before the client has nothing more, up to its size and the end of the log |
| `Consumer.FailedPollLoses` | src/ingestion/kafka_consumer.py:323-356 | a poll that raises loses the messages collected before it, and a later commit passes over them |
| `Consumer.TransactionConsumer.PollBatch` | src/ingestion/kafka_consumer.py:323-356 | collects consecutive messages up to the batch size, past transient errors, and raises exactly when a poll does |
| `Consumer.TransactionConsumer.DeserializeMessages` | src/ingestion/kafka_consumer.py:358-394 | keeps the objects, counts decode errors, skips nulls, raises at the first message that raises anything else or whose decode error cannot be reported |
| `Consumer.TransactionConsumer.CommitOffsets` | src/ingestion/kafka_consumer.py:416-422 | a successful commit moves the committed position to the poll position |
| `Consumer.TransactionConsumer.ConsumeBatch` | src/ingestion/kafka_consumer.py:224-255 | one batch from poll to commit gives the specified next state |
| `AvroDecimal.LengthSuffices` | src/ingestion/schema_registry.py:232-234 | the computed byte length holds every unscaled value in signed form |
| `AvroDecimal.LengthIsMinimalExceptPowers` | src/ingestion/schema_registry.py:232-234 | fewer bytes suffice if and only if the value is -2^(8k-1), and then one byte fewer |
| `AvroDecimal.EncodedLengthMeans` | src/ingestion/schema_registry.py:229-234 | the bytes written are the least number that holds the value, one more for -2^(8k-1), and a single zero byte for zero |
| `AvroDecimal.UnscaledRoundTrip` | src/ingestion/schema_registry.py:227-234 | big-endian two's-complement decoding returns every integer |
| `AvroDecimal.DecimalRoundTripIff` | src/ingestion/schema_registry.py:216-234 | for every decimal and scale a reader sees the scaled value exactly if and only if it is whole and has at most 28 significant digits |
| `AvroDecimal.DecimalMeans` | src/ingestion/schema_registry.py:223-234 | in plain terms: value times ten to the scale is read if and only if it is whole and an integer below 10^28 in size times a power of ten |
| `AvroDecimal.TiesToEven` | src/ingestion/schema_registry.py:226-227 | a digit string exactly in the middle is rounded to the even neighbour |
| `AvroDecimal.DecimalRoundTrip` | src/ingestion/schema_registry.py:216-234 | a value of at most 28 significant digits is cut off toward zero, with an error below one unit, and exact if and only if whole |
| `AvroDecimal.ShortInputsStayShort` | src/ingestion/schema_registry.py:223-227 | a decimal written with at most 28 digits, as every float is, scales to such a value |
| `AvroDecimal.RoundedKeepsShort` | src/ingestion/schema_registry.py:226-227 | the product keeps exactly the values of at most 28 significant digits |
| `AvroDecimal.RoundedIsNear` | src/ingestion/schema_registry.py:226-227 | and moves every other by at most half a unit of the last digit kept |
| `AvroDecimal.LongIntegerIsRounded` | src/ingestion/schema_registry.py:226-227 | 10^28 + 1 at scale 0 is read as 10^28 |
| `AvroDecimal.LongFractionIsRoundedUp` | src/ingestion/schema_registry.py:226-227 | 0.99…9 with 29 nines at scale 0 is read as 1 |

## Left out

- Kafka, Redis, S3, Snowflake, PostgreSQL and CloudWatch clients, Streamlit pages, FastAPI, Airflow: I/O over libraries that are not part of this model.
- Model training, anomaly detection, SHAP, haversine and travel-speed rules, drift tests: numerics that would only enter as assumptions.
- Notification service, alert templates, channel routing, on-call rotation and recipient resolution: formatting and lookups that would only add easy members.
- Threshold breaches and the velocity risk score: functions of the metrics proved here, easy members.
- Escalation records, alerts and cached scores are values inside their engine's collections: a caller that keeps a returned object and sees later changes through it is not modelled.
- Thread interleavings inside one call, except the two locked regions of `start_escalation`.
- Rounding of binary floating point: arithmetic is over reals, or over decimals rounded to 28 digits in `_to_decimal_bytes`, whose unused `precision` argument is not modelled.
- Decimals that are not numbers or beyond the exponent limits of the decimal context, and booleans: `_to_decimal_bytes` raises on them.
- Cache and deduplication key digests: SHA-256 is an arbitrary function; `invalidate_cache` passes a raw id where digests are expected and nothing is claimed about it.
- ScoreCache.LruCache.constructor: takes a maximum of at least one entry; with none the first put raises.
- Values outside the annotated types, except those that make `generate_alert` or the consumer raise: an unhashable rule id, for one.
- Model version syntax, artifact signing, registry file and A/B tests: registration starts after they have succeeded.
- Per-stage latency and throughput metrics of the pipeline.
- Rebalancing in the middle of a batch, consumer restarts and automatic commits: one consumer, commits only between or at the end of batches.
- `clear_all` of the alert manager, which does not reset its statistics, and the manual `remove_suppression`.
- `update_weights`, which assigns before it validates: the ensemble theorems take the weights as given and nonnegative.
- Parsing of timestamps, amounts and YAML: inputs arrive parsed, or as a failure to parse.
