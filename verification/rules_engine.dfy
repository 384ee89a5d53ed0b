/** The rule engine (siem-server/rules/rules_engine.go): the handlers as methods over the stored
    rows, each proved to do exactly what module Correlation says. */
module RulesEngine {
  import opened Clock
  import opened Wrappers
  import opened Rules
  import opened State
  import opened Correlation

  // ---------------------------------------------------------------- compiling and projecting rules

  /** No top-level condition has an invalid regular expression. */
  predicate Compilable(rule: Rule) {
    forall i :: 0 <= i < |rule.conditions| ==> rule.conditions[i].isRegex ==> rule.conditions[i].validPattern
  }

  function CompiledCondition(c: Condition): Condition {
    if c.isRegex then c.(compiled := true) else c
  }

  /** The rule after compileRuleRegex: top-level conditions only, the steps are left alone. */
  function Compiled(rule: Rule): Rule {
    rule.(conditions := seq(|rule.conditions|, i requires 0 <= i < |rule.conditions| => CompiledCondition(rule.conditions[i])))
  }

  /** The rules that a loaded list puts in force: enabled, compilable, the last of each id. */
  function Projection(list: seq<Rule>): map<string, Rule> {
    if list == [] then map[]
    else
      var rest := Projection(list[..|list| - 1]);
      var rule := list[|list| - 1];
      if Compilable(rule) && rule.enabled then rest[rule.id := Compiled(rule)] else rest
  }

  /** Enabled, and no top-level regular expression is invalid. */
  ghost predicate Usable(rule: Rule) {
    rule.enabled && forall c :: c in rule.conditions && c.isRegex ==> c.validPattern
  }

  ghost predicate InForce(list: seq<Rule>, i: int) {
    && 0 <= i < |list| && Usable(list[i])
    && forall j :: i < j < |list| && Usable(list[j]) ==> list[j].id != list[i].id
  }

  /** Projection holds exactly the usable rules, compiled, each under its own id, the last one winning. */
  lemma {:induction false} ProjectionExact(list: seq<Rule>, id: string)
    ensures id in Projection(list) <==> exists i :: InForce(list, i) && list[i].id == id
    ensures id in Projection(list) ==> Projection(list)[id].id == id
    ensures forall i :: InForce(list, i) ==> list[i].id in Projection(list) && Projection(list)[list[i].id] == Compiled(list[i])
  {
    if list != [] {
      var n := |list| - 1;
      var init := list[..n];
      ProjectionExact(init, id);
      assert Usable(list[n]) <==> list[n].enabled && Compilable(list[n]);
      hide Usable, Compilable;
      forall i | 0 <= i < n && (Usable(list[n]) ==> list[n].id != list[i].id) ensures InForce(list, i) == InForce(init, i) {
        assert init[i] == list[i];
      }
      if Usable(list[n]) {
        assert InForce(list, n);
      }
      forall i | InForce(list, i)
        ensures list[i].id in Projection(list) && Projection(list)[list[i].id] == Compiled(list[i])
      {
        if i < n {
          assert InForce(init, i);
        }
      }
      if id in Projection(list) {
        if !(Usable(list[n]) && list[n].id == id) {
          var i :| InForce(init, i) && init[i].id == id;
          assert InForce(list, i);
        }
      }
      if i :| InForce(list, i) && list[i].id == id {
        assert id in Projection(list);
      }
    }
  }

  /** The event meets the conditions, each of which names a field of the event; a regular expression counts
      as compiled. */
  ghost predicate MeetsCompiled(conditions: seq<Condition>, e: Event) {
    forall c :: c in conditions ==> c.field in e.fields && c.test(e)
  }

  /** What a loaded rule matches: once in force, its top-level conditions hold of an event iff each names a
      field of the event and its test holds, regular expressions included. Nothing else about it changed. */
  lemma LoadedRuleMatches(list: seq<Rule>, i: nat, e: Event)
    requires InForce(list, i)
    ensures list[i].id in Projection(list)
    ensures var loaded := Projection(list)[list[i].id];
            && (CheckConditions(loaded.conditions, e) <==> MeetsCompiled(list[i].conditions, e))
            && loaded == list[i].(conditions := loaded.conditions)
  {
    ProjectionExact(list, list[i].id);
    var cs, loaded := list[i].conditions, Compiled(list[i]).conditions;
    assert forall k :: 0 <= k < |cs| ==> loaded[k] == CompiledCondition(cs[k]) && cs[k] in cs;
    if CheckConditions(loaded, e) {
      forall c | c in cs ensures c.field in e.fields && c.test(e) {
        var k :| 0 <= k < |cs| && cs[k] == c;
        assert CheckCondition(loaded[k], e);
      }
    }
  }

  method CompileRuleRegex(rule: Rule) returns (r: Option<Rule>)
    ensures r == if Compilable(rule) then Some(Compiled(rule)) else None
    ensures r.None? <==> exists c :: c in rule.conditions && c.isRegex && !c.validPattern
    ensures r.Some? ==> r.value == rule.(conditions := r.value.conditions) && |r.value.conditions| == |rule.conditions|
    ensures r.Some? ==>
              forall i :: 0 <= i < |rule.conditions| ==>
                && r.value.conditions[i] == rule.conditions[i].(compiled := r.value.conditions[i].compiled)
                && (if rule.conditions[i].isRegex then r.value.conditions[i].compiled else r.value.conditions[i] == rule.conditions[i])
  {
    var done: seq<Condition> := [];
    for i := 0 to |rule.conditions|
      invariant |done| == i
      invariant forall j :: 0 <= j < i ==>
        (rule.conditions[j].isRegex ==> rule.conditions[j].validPattern) && done[j] == CompiledCondition(rule.conditions[j])
    {
      var c := rule.conditions[i];
      if c.isRegex {
        if !c.validPattern {
          return None;
        }
        c := c.(compiled := true);
      }
      done := done + [c];
    }
    assert done == Compiled(rule).conditions;
    return Some(rule.(conditions := done));
  }

  method BuildStepDurations(times: seq<Time>) returns (durations: seq<int>)
    ensures durations == Durations(times)
    ensures |durations| == if times == [] then 0 else |times| - 1
    ensures forall i :: 0 <= i < |durations| ==> durations[i] == times[i + 1] - times[i]
  {
    durations := [];
    if |times| < 2 {
      return;
    }
    for i := 1 to |times|
      invariant |durations| == i - 1
      invariant forall j :: 0 <= j < i - 1 ==> durations[j] == times[j + 1] - times[j]
    {
      durations := durations + [times[i] - times[i - 1]];
    }
  }

  /** The operator switch of handleThresholdAggregation; None where it gives up on the value. */
  method AddValue(agg: Aggregation, acc: Accumulator, e: Event) returns (r: Option<Accumulator>)
    ensures r == Added(agg, acc, e)
  {
    var raw := ExtractValueField(agg.valueField, e);
    var parsed := agg.parseFloat(raw);
    var ts := acc;
    match agg.operator {
      case Sum | Avg =>
        if parsed.None? {
          return None;
        }
        ts := Acc(ts.accumulated + parsed.value, ts.count + 1, ts.distinct);
      case Max =>
        if parsed.None? {
          return None;
        }
        if parsed.value > ts.accumulated {
          ts := Acc(parsed.value, ts.count, ts.distinct);
        }
      case DistinctCount =>
        if raw !in ts.distinct && raw != "" {
          ts := Acc(ts.accumulated, ts.count, ts.distinct + [raw]);
        }
      case _ =>
        return None;
    }
    return Some(ts);
  }

  // ---------------------------------------------------------------- the engine

  ghost predicate TableOk(rules: map<string, Rule>, t: Table, clock: Time) {
    forall id: RowId :: id.rule in rules ==> CellOk(rules[id.rule], Cell(t, id), clock)
  }

  /** Table t' is t with the event applied for every rule but those in `todo`. */
  ghost predicate Midway(rules: map<string, Rule>, todo: set<string>, t: Table, t': Table, now: Time, e: Event) {
    forall id: RowId :: Cell(t', id) == (if id.rule in todo then Cell(t, id) else CellAfter(rules, t, now, e, id))
  }

  lemma EvaluateKeepsInvariant(rules: map<string, Rule>, t: Table, t': Table, clock: Time, now: Time, e: Event)
    requires TableOk(rules, t, clock) && clock <= now
    requires forall id :: id in rules ==> rules[id].id == id
    requires Midway(rules, {}, t, t', now, e)
    ensures TableOk(rules, t', now)
    ensures forall id :: id in rules ==> OutcomeOk(rules[id], RuleResult(rules[id], t, now, e).outcome, now)
  {
    forall id | id in rules ensures OutcomeOk(rules[id], RuleResult(rules[id], t, now, e).outcome, now) {
      EvalKeepsInvariant(rules[id], Group(rules[id], e), Cell(t, EventRow(rules[id], e)), clock, now, e);
    }
    forall id: RowId | id.rule in rules ensures CellOk(rules[id.rule], Cell(t', id), now) {
      EvalKeepsInvariant(rules[id.rule], id.group, Cell(t, id), clock, now, e);
    }
  }

  /** Every recorded outcome is the one read off the table before the event. */
  ghost predicate Reported(rules: map<string, Rule>, outcomes: map<string, Outcome>, t: Table, now: Time, e: Event) {
    forall id :: id in outcomes ==> id in rules && outcomes[id] == RuleResult(rules[id], t, now, e).outcome
  }

  /** Rules do not interfere: evaluating one more of them extends Midway and sees the old table. */
  lemma MidwayStep(rules: map<string, Rule>, todo: set<string>, id: string, t: Table, t1: Table, t2: Table, now: Time, e: Event)
    requires id in todo && id in rules && rules[id].id == id
    requires Midway(rules, todo, t, t1, now, e)
    requires Updated(t1, t2, EventRow(rules[id], e), RuleResult(rules[id], t1, now, e).cell)
    ensures RuleResult(rules[id], t1, now, e) == RuleResult(rules[id], t, now, e)
    ensures Midway(rules, todo - {id}, t, t2, now, e)
  {
    var row := EventRow(rules[id], e);
    assert Cell(t1, row) == Cell(t, row);
    forall other: RowId
      ensures Cell(t2, other) == if other.rule in todo - {id} then Cell(t, other) else CellAfter(rules, t, now, e, other)
    {
      assert Cell(t1, other) == if other.rule in todo then Cell(t, other) else CellAfter(rules, t, now, e, other);
      if other == row {
      } else if other.rule == id {
        assert other.group != Group(rules[id], e);
      }
    }
  }

  class Engine {
    const store: StateStorage
    var rules: map<string, Rule>

    constructor (store: StateStorage)
      ensures this.store == store && rules == map[]
    {
      this.store := store;
      this.rules := map[];
    }

    /** Rules are kept under their own id and every row they own satisfies the row invariant. */
    ghost predicate Valid(clock: Time)
      reads this, store
    {
      && (forall id :: id in rules ==> rules[id].id == id)
      && TableOk(rules, store.rows, clock)
    }

    method ApplyRules(list: seq<Rule>)
      modifies this`rules
      ensures rules == Projection(list)
    {
      rules := map[];
      for i := 0 to |list|
        invariant rules == Projection(list[..i])
      {
        assert list[..i + 1][..i] == list[..i];
        var compiled := CompileRuleRegex(list[i]);
        if compiled.Some? && list[i].enabled {
          rules := rules[list[i].id := compiled.value];
        }
      }
      assert list[..|list|] == list;
    }

    method HandleCountAggregation(rule: Rule, e: Event, now: Time) returns (o: Outcome)
      requires rule.aggregation.Some?
      modifies store
      ensures var r := CountCell(rule.aggregation.value, Group(rule, e), Cell(old(store.rows), EventRow(rule, e)), now);
              Updated(old(store.rows), store.rows, EventRow(rule, e), r.cell) && o == r.outcome
    {
      var agg := rule.aggregation.value;
      if agg.window.EmptyWindow? {
        return Failed(WindowEmpty);
      }
      if agg.window.MalformedWindow? {
        return Failed(WindowMalformed);
      }
      if agg.threshold <= 0 {
        return Failed(ThresholdNotPositive);
      }
      var groupKey := GroupKey(agg.field, e);
      if groupKey == "" {
        return Quiet;
      }
      var st := store.IncrementCounter(RowId(rule.id, groupKey), agg.window.length, now);
      if st.counter >= agg.threshold {
        store.DeleteState(RowId(rule.id, groupKey));
        return Raised(CountAlert(st.counter, agg.threshold, groupKey, st.firstSeen, st.lastSeen));
      }
      return Quiet;
    }

    method HandleThresholdAggregation(rule: Rule, e: Event, now: Time) returns (o: Outcome)
      requires rule.aggregation.Some?
      modifies store
      ensures var r := ThresholdCell(rule.aggregation.value, Group(rule, e), Cell(old(store.rows), EventRow(rule, e)), now, e);
              Updated(old(store.rows), store.rows, EventRow(rule, e), r.cell) && o == r.outcome
    {
      var agg := rule.aggregation.value;
      if agg.window.EmptyWindow? {
        return Failed(WindowEmpty);
      }
      if agg.operator.NoOperator? {
        return Failed(OperatorMissing);
      }
      if agg.valueField == "" {
        return Failed(ValueFieldMissing);
      }
      var thresholdValue := agg.thresholdValue;
      if thresholdValue == 0.0 {
        thresholdValue := agg.threshold as real;
      }
      if thresholdValue <= 0.0 {
        return Failed(ThresholdNotPositive);
      }
      if agg.window.MalformedWindow? {
        return Failed(WindowMalformed);
      }
      var groupKey := GroupKey(agg.field, e);
      if groupKey == "" {
        return Quiet;
      }
      var id := RowId(rule.id, groupKey);
      var existing := store.GetState(id, now);
      var ts := EmptyAcc;
      if existing.Some? {
        ts := DecodeAcc(existing.value.data);
      }
      if agg.operator.UnknownOperator? {
        return Failed(OperatorUnknown);
      }
      var next := AddValue(agg, ts, e);
      if next.None? {
        return Quiet;
      }
      ts := next.value;
      var currentValue := CurrentValue(agg, ts);
      if currentValue >= thresholdValue {
        store.DeleteState(id);
        var distinct := if agg.operator.DistinctCount? then ts.distinct else [];
        return Raised(ThresholdAlert(currentValue, thresholdValue, groupKey, ts.count, distinct));
      }
      if existing.None? {
        store.SaveState(id, Row(1, now, now, Accumulated(ts), now + agg.window.length));
      } else {
        var row := existing.value;
        store.SaveState(id, Row(row.counter + 1, row.firstSeen, now, Accumulated(ts), row.expiresAt));
      }
      return Quiet;
    }

    method HandleSequenceAggregation(rule: Rule, e: Event, now: Time) returns (o: Outcome)
      requires rule.aggregation.Some?
      modifies store
      ensures var r := SequenceStartCell(rule.aggregation.value, Group(rule, e), Cell(old(store.rows), EventRow(rule, e)), now, e);
              Updated(old(store.rows), store.rows, EventRow(rule, e), r.cell) && o == r.outcome
    {
      var agg := rule.aggregation.value;
      var groupKey := GroupKey(agg.field, e);
      if agg.steps == [] {
        return Raised(SequenceAlert(1, groupKey, [], 0, e));
      }
      if !agg.window.Window? {
        return Failed(WindowMalformed);
      }
      if groupKey == "" {
        return Quiet;
      }
      store.SaveState(RowId(rule.id, groupKey), Row(1, now, now, Progress(1, [now], e), now + agg.window.length));
      return Quiet;
    }

    method HandleSequenceIntermediateSteps(rule: Rule, e: Event, now: Time) returns (o: Outcome)
      requires rule.aggregation.Some?
      modifies store
      ensures var r := SequenceNextCell(rule.aggregation.value, Group(rule, e), Cell(old(store.rows), EventRow(rule, e)), now, e);
              Updated(old(store.rows), store.rows, EventRow(rule, e), r.cell) && o == r.outcome
    {
      var agg := rule.aggregation.value;
      if |agg.steps| == 0 {
        return Quiet;
      }
      var groupKey := GroupKey(agg.field, e);
      if groupKey == "" {
        return Quiet;
      }
      var id := RowId(rule.id, groupKey);
      var existing := store.GetState(id, now);
      if existing.None? {
        return Quiet;
      }
      var ss := DecodeProgress(existing.value.data);
      var totalSteps := |agg.steps| + 1;
      if ss.currentStep >= totalSteps {
        return Quiet;
      }
      if ss.currentStep < 1 {
        return Panicked;
      }
      if !CheckConditions(agg.steps[ss.currentStep - 1], e) {
        return Quiet;
      }
      var times := ss.stepTimes + [now];
      var step := ss.currentStep + 1;
      if step >= totalSteps {
        var durations := BuildStepDurations(times);
        store.DeleteState(id);
        return Raised(SequenceAlert(totalSteps, groupKey, durations, now - times[0], ss.firstEvent));
      }
      store.SaveState(id, Row(step, existing.value.firstSeen, now, Progress(step, times, ss.firstEvent),
                              times[0] + WindowOrZero(agg.window)));
      return Quiet;
    }

    method EvaluateRule(rule: Rule, e: Event, now: Time) returns (o: Outcome)
      modifies store
      ensures var r := RuleResult(rule, old(store.rows), now, e);
              Updated(old(store.rows), store.rows, EventRow(rule, e), r.cell) && o == r.outcome
    {
      if !CheckConditions(rule.conditions, e) {
        if rule.aggregation.Some? && rule.aggregation.value.kind.Sequence? {
          o := HandleSequenceIntermediateSteps(rule, e, now);
          return;
        }
        return Quiet;
      }
      if rule.aggregation.None? {
        return Raised(PlainAlert);
      }
      match rule.aggregation.value.kind {
        case Count => o := HandleCountAggregation(rule, e, now);
        case Threshold => o := HandleThresholdAggregation(rule, e, now);
        case Sequence => o := HandleSequenceAggregation(rule, e, now);
        case Unsupported => o := Failed(KindUnsupported);
      }
    }

    /** One event against every rule, in whatever order the map yields them: the final rows and
        each rule's outcome depend on the table before the event only, never on that order. */
    method Evaluate(e: Event, now: Time, ghost clock: Time) returns (outcomes: map<string, Outcome>)
      requires Valid(clock) && clock <= now
      modifies store
      ensures Valid(now)
      ensures Midway(rules, {}, old(store.rows), store.rows, now, e)
      ensures outcomes.Keys == rules.Keys
      ensures Reported(rules, outcomes, old(store.rows), now, e)
      ensures forall id :: id in rules ==> OutcomeOk(rules[id], outcomes[id], now)
    {
      outcomes := map[];
      var todo := rules.Keys;
      while todo != {}
        invariant todo <= rules.Keys
        invariant outcomes.Keys == rules.Keys - todo
        invariant Midway(rules, todo, old(store.rows), store.rows, now, e)
        invariant Reported(rules, outcomes, old(store.rows), now, e)
        decreases todo
      {
        var id :| id in todo;
        ghost var before := store.rows;
        var o := EvaluateRule(rules[id], e, now);
        MidwayStep(rules, todo, id, old(store.rows), before, store.rows, now, e);
        outcomes := outcomes[id := o];
        todo := todo - {id};
      }
      EvaluateKeepsInvariant(rules, old(store.rows), store.rows, clock, now, e);
    }
  }
}
