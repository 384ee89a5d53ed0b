# Verification model of the SIEM server's correlation pipeline

The project models, in Dafny 4.11, the stateful parts of a security event manager written in Go, and proves what
they do over whole histories of events:

- **the correlation engine** (`correlation.dfy`, `rules_engine.dfy`, `state_storage.dfy`, `rules.dfy`): count,
  threshold and sequence rules that keep one row per (rule, group) in the `rule_state` table. Module `Correlation` says
  what one event does to one row; class `Engine` has the handlers in the form the source gives them, proved to do that;
- **whole runs of the engine** (`runs.dfy`, `configurations.dfy`): events and background sweeps in any order, and what the
  fields of a rule decide about every act of every run;
- **what the one-row machines decide** (`tumbling.dfy`, `count.dfy`, `threshold.dfy`, `sequence.dfy`): the tumbling
  partition of the counted events, and the ordered embedding of the steps, both stated over the history alone;
- **concurrent handlers** (`count_interleaving.dfy`, `handler_interleaving.dfy`, `threshold_interleaving.dfy`,
  `sequence_interleaving.dfy`): the engine holds only a read lock, so the SQL statements of different handlers
  interleave; likewise publishers in `wsbus.dfy` and polls in `poll_interleaving.dfy`;
- **rule loading** through the cache (`rule_cache.dfy`), **the event bus** (`wsbus.dfy`), **the alert query builder**
  (`alert_query.dfy`, `sorting.dfy`), **the command queue** (`command_queue.dfy`) and **log batching** on both sides of
  the stream (`batching.dfy`). `sequences.dfy`, `clock.dfy` and `wrappers.dfy` hold shared helpers.

`dafny verify dfyconfig.toml` checks everything.

## Assumptions

- One clock reading per handler call, integer and nondecreasing along a run; the source reads the clock several times
  per handler. In the interleaved models the reading is the one at the handler's first statement.
- Statements of the state store succeed, except where a success flag says otherwise; `state_data` survives its JSON
  encoding unchanged; counters are unbounded; numeric values are reals.
- What a condition tests and how a string parses as a number are parameters of the rule. The field lookup, the group key
  and the compilation of regular expressions are modelled.
- A rule keeps its aggregation while its rows live.
- `ORDER BY` breaks ties by id.

## Where code and documentation disagree

- `migrations/migration.sql:101` says that critical commands execute first. The query sorts the priority as a word, so
  critical commands come last; `CriticalFirstExactly` gives the exact condition under which the promise is kept.
- The `regex` operator is documented for all conditions, but only top-level conditions are compiled. Which loaded
  sequence rules can fire at all is given by `LoadedCanFireExactly`: no step may use a regex, and every step needs an
  event that matches it without matching the top-level conditions, because such an event always restarts the sequence.
- T events within the window do not always raise an alert, because windows tumble: `CountGuaranteeExact` gives the exact
  number that does.
- An edited rule set is not always the one in force once the handlers are done; `CurrentExactly` says exactly when.

## Model

| member | source | states |
|---|---|---|
| State.StateStorage.GetState | siem-server/state/state_storage.go:22-54 | an expired row (strictly past its expiry) is removed and reported as absent, any other row is returned unchanged; no other row moves |
| State.StateStorage.DeleteState | siem-server/state/state_storage.go:57-69 | exactly the named row disappears |
| State.StateStorage.SaveState | siem-server/state/state_storage.go:72-112 | insert, or overwrite every column but the stored first_seen; no other row moves |
| State.StateStorage.IncrementCounter | siem-server/state/state_storage.go:125-177 | the atomic upsert: one more hit in a live window, or a new window of one hit, with the expiry fixed at the opening; state_data is never touched |
| State.StateStorage.DeleteExpiredStates | siem-server/state/state_storage.go:333-350 | the sweep removes exactly the expired rows |
| RulesEngine.CompileRuleRegex | siem-server/rules/rules_engine.go:633-656 | fails iff some top-level regex is invalid; else every top-level regex condition is compiled and nothing else about the rule changes |
| RulesEngine.ProjectionExact | siem-server/rules/rules_engine.go:100-115 | a loaded list puts in force exactly its enabled rules without an invalid top-level regex, compiled, each under its own id, the last one winning |
| RulesEngine.LoadedRuleMatches | siem-server/rules/rules_engine.go:633-693 | once in force, the top-level conditions of a rule hold of an event iff each names a field of the event and its test holds, regular expressions included; id, state and aggregation are as loaded |
| RulesEngine.Engine.ApplyRules | siem-server/rules/rules_engine.go:100-115 | the loop over a loaded list replaces the rule map by the projection of that list |
| RulesEngine.BuildStepDurations | siem-server/rules/rules_engine.go:618-627 | duration i is the time from step i to step i + 1, one for each but the first step |
| Correlation.DurationsTelescope | siem-server/rules/rules_engine.go:618-627 | the step durations add up to last step time minus first |
| Rules.GroupKeysSeparate | siem-server/rules/rules_engine.go:531-541 | without a grouping field all events share one key; with one, an event is skipped iff it lacks the field, and two events share a key iff they share the field's value |
| Rules.ConditionsMean | siem-server/rules/rules_engine.go:658-693 | conditions hold iff each names a field that the event has and its test holds; a regex that was not compiled never holds |
| Rules.ValueFieldMeans | siem-server/rules/rules_engine.go:547-559 | a value field under raw_log. is looked up in the raw log, any other among the fields of the event; a missing value is empty |
| RulesEngine.Engine.HandleCountAggregation | siem-server/rules/rules_engine.go:184-225 | configuration errors, skipped groups, increment, reset and alert, as the one-row specification has them; only this rule's row changes |
| RulesEngine.Engine.HandleThresholdAggregation | siem-server/rules/rules_engine.go:239-388 | the same for the threshold handler |
| RulesEngine.Engine.HandleSequenceAggregation | siem-server/rules/rules_engine.go:405-452 | the same for a matching first step, which always restarts the sequence |
| RulesEngine.Engine.HandleSequenceIntermediateSteps | siem-server/rules/rules_engine.go:457-523 | the same for intermediate steps, with the index panic as an explicit outcome |
| RulesEngine.Engine.EvaluateRule | siem-server/rules/rules_engine.go:147-178 | dispatch: only the row of (rule, group of the event) can change |
| RulesEngine.MidwayStep | siem-server/rules/rules_engine.go:126-144 | rules do not interfere: whatever was evaluated before it, a rule sees and changes its own row as if it came first |
| RulesEngine.Engine.Evaluate | siem-server/rules/rules_engine.go:126-144 | whatever order the rule map yields, the final table and every rule's outcome are functions of the table before the event; the row invariant holds again and no rule panics |
| Correlation.EvalKeepsInvariant | siem-server/rules/rules_engine.go:147-178 | one event keeps the row invariant of its rule, never panics, and raises only alerts that carry what the rule promises |
| Correlation.PanicsExactly | siem-server/rules/rules_engine.go:481-488 | the step lookup panics iff a sequence rule meets, at an event that does not start it, a live row that is not the progress of a started sequence; no run from an empty table reaches such a row |
| Correlation.PanicReachable | siem-server/rules/rules_engine.go:457-487 | a rule that changes its kind reaches it: the row that a count rule leaves after one event, met under the same id and group by a sequence rule at an event that does not start it |
| Correlation.LeftoverRowIgnored | siem-server/rules/rules_engine.go:275-288 | a live row without an accumulator, left by another kind of rule, counts for nothing in the threshold decision |
| RulesEngine.EvaluateKeepsInvariant | siem-server/rules/rules_engine.go:126-144 | the same for the whole table and all rules |
| Runs.RunKeepsInvariant | siem-server/rules/rules_engine.go:428-522 | over every run with sweeps: 1 <= CurrentStep <= |Steps|, as many nondecreasing step times, expiry never extended; stored counters and accumulators stay below the threshold; sequence alerts carry |Steps| non-negative durations that add up to at most the window |
| Runs.Isolation | siem-server/rules/rules_engine.go:126-144 | each row and outcome in the shared table is that of the rule running alone |
| Runs.GroupIsolation | siem-server/rules/rules_engine.go:531-541 | the row and the reports of (rule, group) are those of the run restricted to that group's events |
| Runs.SweepTransparency | siem-server/background.go:66-83 | sweeps at arbitrary points change no report; rows agree up to expired ones and the first_seen that SaveState keeps |
| Configurations.PlainRuleFires | siem-server/rules/rules_engine.go:162-163 | over every run a rule without aggregation raises an alert at every event that meets its conditions and is quiet otherwise; it stores no row |
| Configurations.RefusedExactly | siem-server/rules/rules_engine.go:147-266 | over every run an act fails with an error iff it meets the conditions and the configuration has the defect of that error and none checked before it; a configuration that is not accepted stores no row and raises no alert |
| Configurations.AcceptedOrRefused | siem-server/rules/rules_engine.go:239-266 | a configuration is accepted iff no error refuses it: a window, a positive threshold, and for threshold rules a value field, one of the four operators, and threshold_value positive, or zero with threshold positive |
| Configurations.WindowedExactly | siem-server/rules/rules_engine.go:184-266 | the rules with tumbling windows are the accepted count and threshold rules |
| Configurations.CountsExactly | siem-server/rules/rules_engine.go:292-336 | an event counts iff it meets the conditions and, for sum, avg and max, its value parses as a number |
| Configurations.KeylessSkipped | siem-server/rules/rules_engine.go:195-200 | over every run events without a grouping key store no row and raise no alert, but for sequence rules without steps |
| Configurations.SteplessFires | siem-server/rules/rules_engine.go:408-414 | over every run a sequence rule without steps raises an alert at every event that starts it, and stores no row |
| Tumbling.PartitionUnique | siem-server/state/state_storage.go:114-124 | the tumbling partition of a list of events is unique |
| Tumbling.PartsPartition | siem-server/state/state_storage.go:114-124 | the tumbling partition of a list of events exists |
| Tumbling.TumblingExactness | siem-server/rules/rules_engine.go:184-388 | for every run of a count or threshold rule the stored row is that of the tumbling partition of the counted events (number, first and last event, aggregate, expiry), and an act raises an alert iff it is a counted event that brings its window to the threshold; the alert reports that window |
| CountRules.CountReached | siem-server/rules/rules_engine.go:208 | a count window fires exactly when it holds threshold events |
| CountRules.CountConservation | siem-server/rules/rules_engine.go:201-224 | counted events = threshold x alerts + events lost to expiry + the stored counter |
| CountRules.CountAlertWitnesses | siem-server/rules/rules_engine.go:208-222 | an alert is witnessed by the last T counted events, within one window length |
| CountRules.CountAlertsDisjoint | siem-server/rules/rules_engine.go:208-222 | two alerts of one key have disjoint witnesses |
| CountRules.SilenceBound | siem-server/state/state_storage.go:125-158 | while no alert is raised, the row accounts for all but T - 2 of the events seen |
| CountRules.CountDetectionBound | siem-server/rules/rules_engine.go:201-223 | any stretch no longer than the window with at least 2T - 2 counted events contains an alert, whatever came before |
| CountRules.CountBoundTight | siem-server/state/state_storage.go:139-156 | for T >= 2 and a window of length at least 1, a run with 2T - 3 counted events within one time unit raises no alert |
| CountRules.CountGuaranteeExact | siem-server/rules/rules_engine.go:201-223 | n counted events inside one window length force an alert, whatever came before, iff n is at least 2T - 2, or at least T when T = 1 or the window has length 0 |
| ThresholdRules.SumOfWindow | siem-server/rules/rules_engine.go:292-301 | the accumulator of sum and avg is the sum and number of the window's values |
| ThresholdRules.MaxOfWindow | siem-server/rules/rules_engine.go:304-314 | the accumulator of max is the largest value of the window, or the initial 0 |
| ThresholdRules.DistinctOfWindow | siem-server/rules/rules_engine.go:329-336 | the distinct list has no repetition and holds exactly the non-empty values of the window, so its length is their number |
| ThresholdRules.ThresholdExactness | siem-server/rules/rules_engine.go:239-388 | for every run of a rule with an accepted configuration, it fires exactly at the counted events that bring the true sum, mean, maximum or number of distinct values of their window to threshold_value, or to threshold when that is zero |
| ThresholdRules.ThresholdReports | siem-server/rules/rules_engine.go:339-372 | every alert reports its group, the threshold that decided, and the window: the true sum or mean and the number of events, the value of the event that is its maximum, or exactly its distinct values |
| ThresholdRules.MaxIsHistoryFree | siem-server/rules/rules_engine.go:304-315 | over every run a max rule fires at a counted event iff that event's own value reaches threshold_value, or threshold when that is zero |
| SequenceRules.GreedyIsBest | siem-server/rules/rules_engine.go:486-494 | no embedding places more steps than the greedy match |
| SequenceRules.GreedyExact | siem-server/rules/rules_engine.go:486-498 | all steps embed in order iff the greedy match completes |
| SequenceRules.TrackStart | siem-server/rules/rules_engine.go:426-451 | a start leaves the progress of step 0 behind whatever was there, but for the first_seen of a row it overwrites |
| SequenceRules.TrackRun | siem-server/rules/rules_engine.go:405-522 | after every run the row is the greedy match since the last start, or gone once completed or out of time |
| SequenceRules.SequenceExactness | siem-server/rules/rules_engine.go:405-523 | the last act fires iff it is a non-starting event by which, for the first time since the last start and within the window, the steps embed in order; the alert reports that start and the match times |
| SequenceRules.OneAlertPerStart | siem-server/rules/rules_engine.go:426-452 | when handlers run one at a time, each start leads to at most one alert |
| SequenceRules.CanFireExactly | siem-server/rules/rules_engine.go:405-523 | a sequence rule can raise an alert for a group in some run iff its window is not negative, some event of the group starts it, and every step has an event of the group that matches it without starting the sequence anew |
| SequenceRules.LoadedCanFireExactly | siem-server/rules/rules_engine.go:633-640 | a loaded sequence rule can fire for a group iff no step uses a regex and the rule could fire with all step expressions compiled |
| SequenceRules.LoadedRegexStepNeverFires | siem-server/rules/rule_structure.go:28-33 | no run of a loaded rule with a regex in a step raises an alert |
| SequenceRules.RegexStepMatters | siem-server/rules/rules_engine.go:689-693 | a concrete rule over usernames that cannot fire as loaded and can fire once its step regex is compiled |
| CountInterleaving.RunKeepsInv | siem-server/rules/rules_engine.go:201-223 | under every interleaving, the handlers of an incarnation that reached c report exactly T, T + 1, ..., c |
| CountInterleaving.IncarnationsPartition | siem-server/state/state_storage.go:129-158 | the incarnations of the row split the increments: final counters add up to their number |
| CountInterleaving.AlertsWitnessed | siem-server/rules/rules_engine.go:208-222 | every alert is witnessed by at least T increments of one incarnation within one window |
| CountInterleaving.AlertsPerIncarnation | siem-server/rules/rules_engine.go:208-222 | an incarnation ending at c raises at most max(0, c - T + 1) alerts, and exactly that many once its handlers finished |
| CountInterleaving.UninterruptedIsSequential | siem-server/rules/rules_engine.go:201-223 | a handler that is not interrupted does what the sequential handler does |
| HandlerInterleaving.RunKeepsInv | siem-server/rules/rules_engine.go:239-523 | for threshold and sequence rules: whatever a row and an alert mean, if the sequential decisions keep it, every interleaving of SELECT, DELETE of an expired row, save, delete and alert keeps it, with any of the statements failing; each row and alert is about events of distinct handlers that have finished, and no handler panics |
| HandlerInterleaving.UninterruptedIsSequential | siem-server/rules/rules_engine.go:239-523 | a threshold or sequence handler that is not interrupted does to the row what the sequential engine does, raises the same alert, and panics exactly when it does |
| HandlerInterleaving.FailuresLeaveRow | siem-server/rules/rules_engine.go:275-387 | a failing statement leaves the row as it was: after a failed SELECT or save the handler ends, after a failed DELETE it goes on |
| ThresholdInterleaving.AggregatesGenuine | siem-server/rules/rules_engine.go:275-387 | under every interleaving and failure what is stored or reported is the exact aggregate of distinct handlers' events of one window, below the threshold when stored, at it when reported |
| ThresholdInterleaving.SumAlertsReal | siem-server/rules/rules_engine.go:292-301 | with non-negative values a sum alert is never spurious: the values handled within one window length reach the threshold |
| ThresholdInterleaving.DistinctAlertsReal | siem-server/rules/rules_engine.go:329-336 | a distinct_count alert lists, without repetition, enough values really seen within one window length |
| SequenceInterleaving.MatchesGenuine | siem-server/rules/rules_engine.go:426-522 | under every interleaving and failure stored progress and reported matches are real: one true start, then for each step an event of another handler that matches it without restarting, in order, within the window; the alert reports that start and those times; no handler panics |
| SequenceInterleaving.OneStartTwoAlerts | siem-server/rules/rules_engine.go:468-512 | two handlers that both read the row of a start before one deletes it raise two alerts for that start, although every statement succeeds |
| RuleCache.SnapshotConsistency | siem-server/rules/rules_engine.go:64-123 | under every interleaving and failure the engine evaluates nothing, or the projection of one single version of the table |
| RuleCache.CurrentExactly | siem-server/rules/rules_engine.go:64-123 | under every interleaving and failure the engine holds nothing before any Apply and then the version of the table at the database read behind the last Apply; it is current iff no edit came after that read, or the last edit after it wrote a list with the same projection |
| RuleCache.SerialIsCurrent | siem-server/web_server/handles.go:242-251 | with serial handlers whose Del and database read succeed, the engine holds the current version whenever none is under way |
| RuleCache.EditTakesEffectExactly | siem-server/rules/rules_engine.go:117-123 | for every combination of failures, an edit handled alone takes effect iff the database read succeeds and a failed Del leaves nothing for Get to find, or the edit changes nothing |
| RuleCache.LoadDoes | siem-server/rules/rules_engine.go:64-97 | for every combination of failures, a load puts in force the cached list if Get yields one, else the current table if the read succeeds, which it caches if Set succeeds |
| RuleCache.LoadAfterExpiry | siem-server/rules/rules_engine.go:64-97 | after the cache entry expired, a load whose read succeeds puts the current table in force |
| RuleCache.OverlapLeavesStaleRules | siem-server/web_server/handles.go:268-276 | two overlapping edit handlers leave engine and cache on the older version, although every statement succeeded; the engine then differs from the current rules whenever the two versions do |
| WsEvents.Bus.constructor | siem-server/internal/events/wsbus.go:38-43 | a new bus is empty and open |
| WsEvents.Bus.Subscribe | siem-server/internal/events/wsbus.go:47-69 | a fresh id and an open empty channel, or nothing on a closed bus |
| WsEvents.Bus.CloseChannel | siem-server/internal/events/wsbus.go:82 | a channel is closed only while open |
| WsEvents.Bus.TrySend | siem-server/internal/events/wsbus.go:101-107 | a non-blocking send on an open channel: enqueue below 64, drop at 64 |
| WsEvents.Bus.Unsubscribe | siem-server/internal/events/wsbus.go:73-85 | afterwards the id is not subscribed; if it was, its channel is closed with its queue as before; every other subscriber and channel is as before |
| WsEvents.Bus.Publish | siem-server/internal/events/wsbus.go:87-110 | one publication: every wanting subscriber gets the event or drops it, whatever order the map yields; nothing on a closed bus |
| WsEvents.UninterruptedIsPublish | siem-server/internal/events/wsbus.go:87-110 | the turns of one publication, not interleaved with others and in any order, add up to what the method does |
| WsEvents.Bus.Shutdown | siem-server/internal/events/wsbus.go:112-132 | afterwards the bus is closed, nobody is subscribed and every channel is closed with its queue as before; it reports whether it was closed already |
| WsEvents.Bus.Receive | siem-server/web_server/handles.go:397-400 | a receiver takes the oldest buffered event, also from a closed channel |
| WsEvents.RunOk | siem-server/internal/events/wsbus.go:47-132 | over every run with any number of publishers at once: a channel is open iff its id is in the map, publications only visit subscribed ids, ids stay below nextID, buffers hold at most 64, closed implies empty |
| WsEvents.RunGrows | siem-server/internal/events/wsbus.go:47-132 | ids are never reused, a forgotten subscriber never returns, a closed bus stays closed and empty |
| WsEvents.DueWhileSubscribed | siem-server/internal/events/wsbus.go:47-110 | over every run, from its subscription until it ends, a subscriber is due exactly the events published since then that pass the filter it subscribed with, in that order |
| WsEvents.NothingAfterwards | siem-server/internal/events/wsbus.go:73-132 | over every run, whoever unsubscribed or saw the bus shut down is in no later subscriber map, its channel stays closed, and nothing more is offered or due to it |
| WsEvents.Delivery | siem-server/internal/events/wsbus.go:87-110 | over every run taken plus buffered is a subsequence of the offered events in the order of the offers, offered = taken + buffered + dropped, and delivery is complete when nothing was dropped |
| WsEvents.OfferedOnce | siem-server/internal/events/wsbus.go:95-107 | under any interleaving of publishers, the events offered to a subscriber plus those publications under way still owe it are exactly the filter-passing events published while it was subscribed, each once |
| WsEvents.AllOffered | siem-server/internal/events/wsbus.go:95-107 | when no publication is under way nothing is owed |
| WsEvents.OffersInOrder | siem-server/internal/events/wsbus.go:87-110 | over every run with any number of publishers: when one publication is done before another begins, their offers to a subscriber come in that order |
| WsEvents.DeliveryInOrder | siem-server/internal/events/wsbus.go:87-110 | over every run what a subscriber took and has buffered comes from different publications, never from a later one before an earlier one that was done when the later began |
| WsEvents.SerialOffers | siem-server/internal/events/wsbus.go:87-110 | with one publisher at a time, what was offered to a subscriber, and what the last publication still owes it, is the list of the filter-passing events in the order of their publication |
| WsEvents.SerialDelivery | siem-server/internal/events/wsbus.go:87-110 | with one publisher at a time, what a subscriber took and has buffered is an in-order subsequence of the filter-passing events published, and all of them once the last publication is done and if nothing was dropped |
| Sorting.SortSorted | siem-server/alerts/alert_storage.go:211 | ORDER BY returns a sorted permutation |
| AlertQuery.AppendFilters | siem-server/alerts/alert_storage.go:176-208 | the appended conditions mean the filter and use $1 .. $n |
| AlertQuery.AlertStorage.BuildGetAlerts | siem-server/alerts/alert_storage.go:162-224 | the text uses exactly $1 .. $n in order, and over every table its rows are those of the filter, newest first, offset, then limit |
| AlertQuery.AlertStorage.GetAlerts | siem-server/alerts/alert_storage.go:162-249 | returns the wanted rows |
| AlertQuery.AlertStorage.CountAlerts | siem-server/alerts/alert_storage.go:425-467 | returns the number of matching rows |
| AlertQuery.WantedRows | siem-server/alerts/alert_storage.go:173-211 | the unpaged rows are exactly the rows that meet every given filter (rule, severity, status, from and to inclusive), with their multiplicity, newest first |
| AlertQuery.WantedPaged | siem-server/alerts/alert_storage.go:213-224 | a positive offset skips that many of the unpaged rows, a positive limit keeps that many at most, each with or without the other |
| AlertQuery.CountIsLength | siem-server/alerts/alert_storage.go:425-467 | CountAlerts(f) is the length of GetAlerts(f) without paging |
| AlertQuery.PagesConcatenate | siem-server/alerts/alert_storage.go:213-224 | pages at offsets 0, L, 2L, ... concatenate to the unpaged list, nothing skipped or repeated |
| CommandQueues.CommandQueue.GetPendingCommandsForHost | siem-server/agent/agent_storage.go:329-406 | a poll returns the first ten of the host's queue and sets the status of exactly them to sent, or changes nothing when the update fails, so that the next poll returns them again |
| CommandQueues.QueueUnique | siem-server/agent/agent_storage.go:333-336 | the queue of a host holds exactly its pending commands, each once |
| CommandQueues.QueueInOrder | siem-server/agent/agent_storage.go:337 | no later command of a queue has a word of priority after that of an earlier one in the order of words: all medium, then low, then high, then critical; oldest first within a priority |
| CommandQueues.QueueAfterMark | siem-server/agent/agent_storage.go:392-398 | marking takes exactly the marked commands out of any host's queue and keeps the order |
| CommandQueues.PollTakesPrefix | siem-server/agent/agent_storage.go:329-406 | a successful poll leaves the rest of the queue and other hosts' queues as they were |
| CommandQueues.QueueAfterPolls | siem-server/agent/agent_storage.go:385-403 | after any sequence of polls, marked or not, the queue has lost ten commands per successful mark, from the front, and other hosts are untouched |
| CommandQueues.Drain | siem-server/agent/agent_storage.go:329-406 | for any sequence of mark results, poll j returns the ten commands after ten times the earlier successes, and the marked polls hand out the first min(10k, n) commands in order, each once |
| PollInterleaving.QueueOfRun | siem-server/agent/agent_storage.go:333-398 | however polls, marks and arrivals interleave, the queue of a host is that of all commands so far without those that some poll handed out and marked, in the same order |
| PollInterleaving.QueuedUntilMarked | siem-server/agent/agent_storage.go:385-403 | no command is lost: a pending one leaves the queue exactly when a poll that handed it out has marked it |
| PollInterleaving.ArrivalQueued | siem-server/agent/command_storage.go:20-56 | a new command is pending and queued for its host |
| PollInterleaving.HandedOutAgainExactly | siem-server/agent/agent_storage.go:329-406 | what one poll handed out is handed out again by a later one iff no poll that handed it out has marked it by then, as long as nothing arrives for the host in between |
| PollInterleaving.OverlapHandsOutTwice | siem-server/agent/agent_storage.go:341-398 | two overlapping polls of a host hand out the same commands, although both marks succeed |
| PollInterleaving.UninterruptedIsPoll | siem-server/agent/agent_storage.go:329-406 | SELECT and UPDATE without interruption do what the method does |
| CommandQueues.CriticalFirstExactly | migrations/migration.sql:101 | critical commands go first iff all pending commands of the host are critical or none is |
| CommandQueues.CriticalGoesLast | siem-server/agent/agent_storage.go:337 | a table on which a medium command is handed out before an older critical one |
| Batching.BatchLogs | agent_linux/agent/grpc_ag/batch_logs.go:14-52 | a batch is sent exactly where ten logs have come since the last one, or at a tick or stop that finds some, and holds the logs since then; the buffer holds the logs since the last batch; batches and buffer concatenate to the dequeued logs |
| Batching.ShortBatches | agent_linux/agent/grpc_ag/batch_logs.go:26-50 | a batch of fewer than ten logs was sent at a tick or a stop, and after a tick or a stop the buffer is empty |
| Batching.ValidExactly | siem-server/internal/delivery/grpc_handler.go:103-107 | the logs the server uses are those whose timestamp parses, each as often as it came, in order |
| Batching.Process | siem-server/internal/delivery/grpc_handler.go:87-94 | the size of a batch is added to the processed logs iff ProcessBatch succeeds, else to the failed ones |
| Batching.SendRawLogStream | siem-server/internal/delivery/grpc_handler.go:73-133 | batches of 1 to 10, full but for the last, concatenate with the buffer to the valid logs; processed + failed + buffered = received, apart from the log that comes in with a cancellation; nothing is buffered or lost on the answered path |
| Batching.StreamServed | siem-server/internal/delivery/grpc_handler.go:73-133 | of the stream of one agent batch the server processes all valid logs, as one batch, or none: all iff the stream is delivered whole, or it broke only after ten logs that were all valid |
| Batching.ServedExactly | siem-server/internal/delivery/grpc_handler.go:73-133 | for whatever batches the agent sends and wherever their streams break, the processed logs are exactly the valid logs of the batches that go through, in order |
| Batching.EndToEnd | agent_linux/agent/grpc_ag/batch_logs.go:14-52 | agent and server composed, each stream delivered whole or cut at any point: the processed logs are exactly the valid ones of the batches that go through, hence an in-order subsequence of the valid logs dequeued, none twice; all of them but those in the agent's buffer when every stream is whole; the buffer is empty after a stop |

## Left out

- PostgreSQL, Redis, gRPC, HTTP, WebSocket, SMTP and Telegram themselves: only the effect of each statement is modelled.
- Cancelled contexts during evaluation, and failing statements of the state store in the sequential engine.
- Editing a rule's aggregation while its rows live: the runs keep each rule fixed; what a leftover row of another shape does to one event is PanicsExactly, and PanicReachable shows how it gets there.
- What each condition operator compares (case folding, IP ranges, number parsing) and JSON field extraction.
- AddRule, RemoveRule, alert actions and trigger statistics.
- Scan errors of single alert rows, and alerts inserted between two pages.
- CommandQueues.Drain: commands arriving between polls; with arrivals, what stays in the queue is QueuedUntilMarked.
- PollInterleaving.HandedOutAgainExactly: arrivals for the host between the two polls, which can push a command out of the first ten.
- Cancelling a command or reporting its result while a poll is under way: only arrivals, SELECT and UPDATE are steps.
- Batching.SendRawLogStream: int32 overflow of the counters, and the parsing of a timestamp, which is a flag of the log.
- The collectors' goroutines that feed the agent's channel: the batcher starts from the order in which logs are dequeued.
- Log parsers, users, roles, tokens, action executors, agent commands on the hosts, the frontend and generated code.
