/** What one event does to the one row of one (rule, group) pair: the specification that the
    handlers of siem-server/rules/rules_engine.go are proved against. */
module Correlation {
  import opened Clock
  import opened Wrappers
  import opened Rules
  import opened State

  datatype Alert =
    | PlainAlert
    | CountAlert(counter: int, threshold: int, group: string, firstSeen: Time, lastSeen: Time)
    | ThresholdAlert(currentValue: real, thresholdValue: real, group: string, eventCount: nat, distinct: seq<string>)
    | SequenceAlert(stepsTotal: nat, group: string, stepDurations: seq<int>, totalDuration: int, firstEvent: Event)

  datatype ConfigError =
    | WindowEmpty | WindowMalformed | ThresholdNotPositive | OperatorMissing
    | ValueFieldMissing | OperatorUnknown | KindUnsupported

  /** Panicked stands for an index out of range in agg.Steps[ss.CurrentStep-1]. */
  datatype Outcome = Quiet | Raised(alert: Alert) | Failed(error: ConfigError) | Panicked

  datatype CellResult = CellResult(cell: Option<Row>, outcome: Outcome)

  // ---------------------------------------------------------------- count

  function CountError(agg: Aggregation): Option<ConfigError> {
    if agg.window.EmptyWindow? then Some(WindowEmpty)
    else if agg.window.MalformedWindow? then Some(WindowMalformed)
    else if agg.threshold <= 0 then Some(ThresholdNotPositive)
    else None
  }

  function CountCell(agg: Aggregation, group: string, c: Option<Row>, now: Time): CellResult {
    if CountError(agg).Some? then CellResult(c, Failed(CountError(agg).value))
    else if group == "" then CellResult(c, Quiet)
    else
      var st := Upserted(c, now, agg.window.length);
      if st.counter >= agg.threshold then
        CellResult(None, Raised(CountAlert(st.counter, agg.threshold, group, st.firstSeen, st.lastSeen)))
      else CellResult(Some(st), Quiet)
  }

  // ---------------------------------------------------------------- threshold

  const EmptyAcc := Acc(0.0, 0, [])

  function ThresholdError(agg: Aggregation): Option<ConfigError> {
    if agg.window.EmptyWindow? then Some(WindowEmpty)
    else if agg.operator.NoOperator? then Some(OperatorMissing)
    else if agg.valueField == "" then Some(ValueFieldMissing)
    else if EffectiveThreshold(agg) <= 0.0 then Some(ThresholdNotPositive)
    else if agg.window.MalformedWindow? then Some(WindowMalformed)
    else None
  }

  /** Decoding state_data: unrelated data gives the zero value. */
  function DecodeAcc(data: StateData): Accumulator {
    if data.Accumulated? then data.acc else EmptyAcc
  }

  /** The accumulator after one more event, or None when its value cannot be parsed. */
  function Added(agg: Aggregation, acc: Accumulator, e: Event): Option<Accumulator> {
    var raw := ExtractValueField(agg.valueField, e);
    var parsed := agg.parseFloat(raw);
    match agg.operator
    case Sum | Avg =>
      if parsed.None? then None else Some(acc.(accumulated := acc.accumulated + parsed.value, count := acc.count + 1))
    case Max =>
      if parsed.None? then None
      else Some(if parsed.value > acc.accumulated then acc.(accumulated := parsed.value) else acc)
    case DistinctCount =>
      Some(if raw !in acc.distinct && raw != "" then acc.(distinct := acc.distinct + [raw]) else acc)
    case _ => None
  }

  function CurrentValue(agg: Aggregation, acc: Accumulator): real {
    match agg.operator
    case Avg => if acc.count == 0 then 0.0 else acc.accumulated / acc.count as real
    case DistinctCount => |acc.distinct| as real
    case _ => acc.accumulated
  }

  function ThresholdAlertOf(agg: Aggregation, group: string, acc: Accumulator): Alert {
    ThresholdAlert(CurrentValue(agg, acc), EffectiveThreshold(agg), group, acc.count,
                   if agg.operator.DistinctCount? then acc.distinct else [])
  }

  function ThresholdCell(agg: Aggregation, group: string, c: Option<Row>, now: Time, e: Event): CellResult {
    if ThresholdError(agg).Some? then CellResult(c, Failed(ThresholdError(agg).value))
    else if group == "" then CellResult(c, Quiet)
    else
      var live := Live(c, now);
      var acc := Added(agg, if live.None? then EmptyAcc else DecodeAcc(live.value.data), e);
      if agg.operator.UnknownOperator? then CellResult(live, Failed(OperatorUnknown))
      else if acc.None? then CellResult(live, Quiet)
      else if CurrentValue(agg, acc.value) >= EffectiveThreshold(agg) then
        CellResult(None, Raised(ThresholdAlertOf(agg, group, acc.value)))
      else if live.None? then
        CellResult(Some(Row(1, now, now, Accumulated(acc.value), now + agg.window.length)), Quiet)
      else
        CellResult(Some(live.value.(counter := live.value.counter + 1, lastSeen := now, data := Accumulated(acc.value))), Quiet)
  }

  /** A live row that another kind of rule left behind counts for nothing: the event is judged as if it
      opened a window. */
  lemma LeftoverRowIgnored(agg: Aggregation, group: string, c: Option<Row>, now: Time, e: Event)
    requires c.Some? && !c.value.data.Accumulated?
    ensures ThresholdCell(agg, group, c, now, e).outcome == ThresholdCell(agg, group, None, now, e).outcome
  {
  }

  // ---------------------------------------------------------------- sequence

  /** The intervals between consecutive step times. */
  function Durations(times: seq<Time>): seq<int> {
    if |times| < 2 then [] else seq(|times| - 1, i requires 0 <= i < |times| - 1 => times[i + 1] - times[i])
  }

  function SequenceStartCell(agg: Aggregation, group: string, c: Option<Row>, now: Time, e: Event): CellResult {
    if agg.steps == [] then CellResult(c, Raised(SequenceAlert(1, group, [], 0, e)))
    else if agg.window.EmptyWindow? || agg.window.MalformedWindow? then CellResult(c, Failed(WindowMalformed))
    else if group == "" then CellResult(c, Quiet)
    else
      CellResult(Some(Overwritten(c, Row(1, now, now, Progress(1, [now], e), now + agg.window.length))), Quiet)
  }

  /** Decoding state_data: unrelated data gives the zero value, whose current step is 0. */
  function DecodeProgress(data: StateData): StateData {
    if data.Progress? then data else Progress(0, [], Event(map[], map[]))
  }

  function WindowOrZero(w: TimeWindow): int {
    if w.Window? then w.length else 0
  }

  function SequenceNextCell(agg: Aggregation, group: string, c: Option<Row>, now: Time, e: Event): CellResult {
    var live := Live(c, now);
    if agg.steps == [] || group == "" then CellResult(c, Quiet)
    else if live.None? then CellResult(live, Quiet)
    else
      var ss := DecodeProgress(live.value.data);
      var total := |agg.steps| + 1;
      if ss.currentStep >= total then CellResult(live, Quiet)
      else if ss.currentStep < 1 then CellResult(live, Panicked)
      else if !CheckConditions(agg.steps[ss.currentStep - 1], e) then CellResult(live, Quiet)
      else
        var times := ss.stepTimes + [now];
        if ss.currentStep + 1 >= total then
          CellResult(None, Raised(SequenceAlert(total, group, Durations(times), now - times[0], ss.firstEvent)))
        else
          CellResult(Some(live.value.(
            counter := ss.currentStep + 1,
            lastSeen := now,
            data := Progress(ss.currentStep + 1, times, ss.firstEvent),
            expiresAt := times[0] + WindowOrZero(agg.window))), Quiet)
  }

  // ---------------------------------------------------------------- one rule, one event

  function EvalCell(rule: Rule, group: string, c: Option<Row>, now: Time, e: Event): CellResult {
    if !CheckConditions(rule.conditions, e) then
      if rule.aggregation.Some? && rule.aggregation.value.kind.Sequence?
      then SequenceNextCell(rule.aggregation.value, group, c, now, e)
      else CellResult(c, Quiet)
    else if rule.aggregation.None? then CellResult(c, Raised(PlainAlert))
    else match rule.aggregation.value.kind
      case Count => CountCell(rule.aggregation.value, group, c, now)
      case Threshold => ThresholdCell(rule.aggregation.value, group, c, now, e)
      case Sequence => SequenceStartCell(rule.aggregation.value, group, c, now, e)
      case Unsupported => CellResult(c, Failed(KindUnsupported))
  }

  /** The step lookup is out of range exactly when a sequence rule that expects an intermediate step finds
      a live row that is not the progress of a started sequence: a row another aggregation left behind. */
  lemma PanicsExactly(rule: Rule, group: string, c: Option<Row>, now: Time, e: Event)
    ensures EvalCell(rule, group, c, now, e).outcome.Panicked? <==>
              && rule.aggregation.Some? && rule.aggregation.value.kind.Sequence? && rule.aggregation.value.steps != []
              && group != "" && !CheckConditions(rule.conditions, e)
              && c.Some? && c.value.expiresAt >= now
              && !(c.value.data.Progress? && c.value.data.currentStep >= 1)
  {
  }

  /** Such a row arises when a rule changes its kind while a row lives: one event under a count rule, then,
      under a sequence rule of the same id, one that does not start the sequence. */
  lemma PanicReachable(counting: Rule, sequencing: Rule, group: string, now: Time, e: Event, later: Time, next: Event)
    requires counting.aggregation.Some? && counting.aggregation.value.kind.Count? && CheckConditions(counting.conditions, e)
    requires CountError(counting.aggregation.value).None? && counting.aggregation.value.threshold >= 2 && group != ""
    requires sequencing.aggregation.Some? && sequencing.aggregation.value.kind.Sequence?
    requires sequencing.aggregation.value.steps != [] && !CheckConditions(sequencing.conditions, next)
    requires later <= now + counting.aggregation.value.window.length
    ensures EvalCell(sequencing, group, EvalCell(counting, group, None, now, e).cell, later, next).outcome.Panicked?
  {
    PanicsExactly(sequencing, group, EvalCell(counting, group, None, now, e).cell, later, next);
  }

  function EventRow(rule: Rule, e: Event): RowId {
    RowId(rule.id, Group(rule, e))
  }

  /** What evaluating one rule does, read off the table before the event. */
  function RuleResult(rule: Rule, t: Table, now: Time, e: Event): CellResult {
    EvalCell(rule, Group(rule, e), Cell(t, EventRow(rule, e)), now, e)
  }

  /** Any cell of the table after every rule of the map has seen the event. */
  function CellAfter(rules: map<string, Rule>, t: Table, now: Time, e: Event, id: RowId): Option<Row> {
    if id.rule in rules && Group(rules[id.rule], e) == id.group
    then EvalCell(rules[id.rule], id.group, Cell(t, id), now, e).cell
    else Cell(t, id)
  }

  // ---------------------------------------------------------------- row and alert invariants

  ghost predicate Nondecreasing(times: seq<Time>) {
    forall i, j :: 0 <= i < j < |times| ==> times[i] <= times[j]
  }

  /** What holds of every stored row of a rule whose clock last read `clock`. */
  ghost predicate RowOk(rule: Rule, r: Row, clock: Time) {
    rule.aggregation.Some? &&
    var agg := rule.aggregation.value;
    && agg.window.Window?
    && r.lastSeen <= clock
    && match agg.kind
       case Count =>
         && 1 <= r.counter < agg.threshold
         && r.expiresAt == r.firstSeen + agg.window.length
         && r.firstSeen <= r.lastSeen
         && (r.counter >= 2 ==> r.lastSeen <= r.expiresAt)
       case Threshold =>
         && ThresholdError(agg).None?
         && r.data.Accumulated?
         && CurrentValue(agg, r.data.acc) < EffectiveThreshold(agg)
         && (agg.operator.Max? ==> r.data.acc.accumulated >= 0.0)
       case Sequence =>
         && r.data.Progress?
         && 1 <= r.data.currentStep <= |agg.steps|
         && |r.data.stepTimes| == r.data.currentStep == r.counter
         && Nondecreasing(r.data.stepTimes)
         && r.expiresAt == r.data.stepTimes[0] + agg.window.length
         && r.data.stepTimes[r.data.currentStep - 1] == r.lastSeen
         && (r.counter >= 2 ==> r.lastSeen <= r.expiresAt)
       case Unsupported => false
  }

  ghost predicate CellOk(rule: Rule, c: Option<Row>, clock: Time) {
    c.Some? ==> RowOk(rule, c.value, clock)
  }

  function SumInts(xs: seq<int>): int {
    if xs == [] then 0 else SumInts(xs[..|xs| - 1]) + xs[|xs| - 1]
  }

  /** What a rule with this aggregation promises of each alert it raises. */
  ghost predicate AlertOk(agg: Aggregation, alert: Alert, now: Time) {
    match alert
    case PlainAlert => false
    case CountAlert(counter, threshold, _, firstSeen, lastSeen) =>
      && agg.kind.Count? && agg.window.Window?
      && counter == threshold == agg.threshold
      && firstSeen <= lastSeen == now
      && (counter >= 2 ==> lastSeen - firstSeen <= agg.window.length)
    case ThresholdAlert(current, threshold, _, _, _) =>
      && agg.kind.Threshold?
      && current >= threshold == EffectiveThreshold(agg) > 0.0
    case SequenceAlert(total, _, durations, spent, _) =>
      && agg.kind.Sequence?
      && total == |agg.steps| + 1
      && |durations| == |agg.steps|
      && (forall i :: 0 <= i < |durations| ==> durations[i] >= 0)
      && SumInts(durations) == spent
      && (agg.steps != [] ==> agg.window.Window? && spent <= agg.window.length)
  }

  /** What holds of every outcome: no panic, and only well-formed alerts. */
  ghost predicate OutcomeOk(rule: Rule, o: Outcome, now: Time) {
    && !o.Panicked?
    && (o.Raised? && rule.aggregation.Some? ==> AlertOk(rule.aggregation.value, o.alert, now))
    && (o.Raised? && rule.aggregation.None? ==> o.alert.PlainAlert?)
  }

  /** Durations telescope: they add up to last minus first. */
  lemma {:induction false} DurationsTelescope(times: seq<Time>)
    requires |times| >= 1
    ensures SumInts(Durations(times)) == times[|times| - 1] - times[0]
  {
    if |times| >= 2 {
      var init := times[..|times| - 1];
      DurationsTelescope(init);
      var d := Durations(times);
      assert d[..|d| - 1] == Durations(init);
    }
  }

  lemma CountKeepsInvariant(rule: Rule, group: string, c: Option<Row>, clock: Time, now: Time)
    requires rule.aggregation.Some? && rule.aggregation.value.kind.Count?
    requires CellOk(rule, c, clock) && clock <= now
    ensures var r := CountCell(rule.aggregation.value, group, c, now);
            CellOk(rule, r.cell, now) && OutcomeOk(rule, r.outcome, now)
  {
  }

  lemma ThresholdKeepsInvariant(rule: Rule, group: string, c: Option<Row>, clock: Time, now: Time, e: Event)
    requires rule.aggregation.Some? && rule.aggregation.value.kind.Threshold?
    requires CellOk(rule, c, clock) && clock <= now
    ensures var r := ThresholdCell(rule.aggregation.value, group, c, now, e);
            CellOk(rule, r.cell, now) && OutcomeOk(rule, r.outcome, now)
  {
  }

  lemma StepTimesExtended(times: seq<Time>, now: Time)
    requires Nondecreasing(times) && |times| >= 1 && times[|times| - 1] <= now
    ensures Nondecreasing(times + [now])
    ensures var d := Durations(times + [now]);
            && |d| == |times|
            && (forall i :: 0 <= i < |d| ==> d[i] >= 0)
            && SumInts(d) == now - times[0]
  {
    var d := Durations(times + [now]);
    assert forall i :: 0 <= i < |d| ==> d[i] == (times + [now])[i + 1] - (times + [now])[i];
    DurationsTelescope(times + [now]);
  }

  lemma SequenceKeepsInvariant(rule: Rule, group: string, c: Option<Row>, clock: Time, now: Time, e: Event)
    requires rule.aggregation.Some? && rule.aggregation.value.kind.Sequence?
    requires CellOk(rule, c, clock) && clock <= now
    ensures var r := SequenceNextCell(rule.aggregation.value, group, c, now, e);
            CellOk(rule, r.cell, now) && OutcomeOk(rule, r.outcome, now)
  {
    hide Durations, SumInts, Nondecreasing;
    var agg := rule.aggregation.value;
    var live := Live(c, now);
    if agg.steps != [] && group != "" && live.Some? {
      StepTimesExtended(live.value.data.stepTimes, now);
    }
  }

  /** One event keeps the row invariant, never panics, and raises only well-formed alerts. */
  lemma EvalKeepsInvariant(rule: Rule, group: string, c: Option<Row>, clock: Time, now: Time, e: Event)
    requires CellOk(rule, c, clock) && clock <= now
    ensures CellOk(rule, EvalCell(rule, group, c, now, e).cell, now)
    ensures OutcomeOk(rule, EvalCell(rule, group, c, now, e).outcome, now)
  {
    if rule.aggregation.Some? {
      match rule.aggregation.value.kind
      case Count => CountKeepsInvariant(rule, group, c, clock, now);
      case Threshold => ThresholdKeepsInvariant(rule, group, c, clock, now, e);
      case Sequence => SequenceKeepsInvariant(rule, group, c, clock, now, e);
      case Unsupported =>
    }
  }
}
