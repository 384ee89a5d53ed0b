/** What the configuration of a rule decides at every act of every run, read off the fields of the rule:
    rules without aggregation, rules the engine refuses, events without a grouping key. */
module Configurations {
  import opened Clock
  import opened Wrappers
  import opened Rules
  import opened State
  import opened Correlation
  import opened Runs
  import opened Tumbling

  /** The act is an event of the group that meets all top-level conditions: each names a field that the
      event has, and its test holds; a regular expression counts only once compiled. */
  ghost predicate Meets(rule: Rule, group: string, a: Act) {
    && a.Observe?
    && Group(rule, a.e) == group
    && forall c :: c in rule.conditions ==> c.field in a.e.fields && c.test(a.e) && (c.isRegex ==> c.compiled)
  }

  /** A rule without aggregation raises an alert at every event that meets its conditions and at no other
      act, and never stores a row. */
  lemma {:induction false} PlainRuleFires(rule: Rule, h: seq<Act>)
    requires rule.aggregation.None?
    ensures CellRun(rule, "", h).None?
    ensures h != [] ==> LastOutcome(rule, "", h) == if Meets(rule, "", h[|h| - 1]) then Raised(PlainAlert) else Quiet
  {
    hide CheckConditions;
    if h != [] {
      var a := h[|h| - 1];
      PlainRuleFires(rule, h[..|h| - 1]);
      if a.Observe? {
        ConditionsMean(rule.conditions, a.e);
      }
    }
  }

  // ---------------------------------------------------------------- refused configurations

  /** Neither of the two thresholds is usable: threshold_value decides unless it is zero. */
  predicate NoThreshold(agg: Aggregation) {
    agg.thresholdValue < 0.0 || (agg.thresholdValue == 0.0 && agg.threshold <= 0)
  }

  /** The configuration is refused with this error: it has the defect, and none that is looked for first. */
  predicate Refused(agg: Aggregation, group: string, error: ConfigError) {
    match agg.kind
    case Count =>
      || (error.WindowEmpty? && agg.window.EmptyWindow?)
      || (error.WindowMalformed? && agg.window.MalformedWindow?)
      || (error.ThresholdNotPositive? && agg.window.Window? && agg.threshold <= 0)
    case Threshold =>
      if agg.window.EmptyWindow? then error.WindowEmpty?
      else if agg.operator.NoOperator? then error.OperatorMissing?
      else if agg.valueField == "" then error.ValueFieldMissing?
      else if NoThreshold(agg) then error.ThresholdNotPositive?
      else if agg.window.MalformedWindow? then error.WindowMalformed?
      else error.OperatorUnknown? && agg.operator.UnknownOperator? && group != ""
    case Sequence => error.WindowMalformed? && agg.steps != [] && !agg.window.Window?
    case Unsupported => error.KindUnsupported?
  }

  /** A configuration that the engine works with. */
  predicate Accepted(agg: Aggregation) {
    match agg.kind
    case Count => agg.window.Window? && agg.threshold > 0
    case Threshold =>
      && agg.window.Window? && agg.valueField != "" && !NoThreshold(agg)
      && (agg.operator.Sum? || agg.operator.Max? || agg.operator.Avg? || agg.operator.DistinctCount?)
    case Sequence => agg.steps == [] || agg.window.Window?
    case Unsupported => false
  }

  lemma AcceptedOrRefused(agg: Aggregation, group: string)
    requires group != ""
    ensures Accepted(agg) <==> forall error :: !Refused(agg, group, error)
  {
    if !Accepted(agg) {
      var error :=
        match agg.kind
        case Count => if agg.window.EmptyWindow? then WindowEmpty else if agg.window.Window? then ThresholdNotPositive else WindowMalformed
        case Threshold =>
          if agg.window.EmptyWindow? then WindowEmpty
          else if agg.operator.NoOperator? then OperatorMissing
          else if agg.valueField == "" then ValueFieldMissing
          else if NoThreshold(agg) then ThresholdNotPositive
          else if agg.window.MalformedWindow? then WindowMalformed
          else OperatorUnknown
        case Sequence => WindowMalformed
        case Unsupported => KindUnsupported;
      assert Refused(agg, group, error);
    }
  }

  /** One act on whatever row is stored. */
  lemma FailsExactly(rule: Rule, group: string, c: Option<Row>, a: Act, error: ConfigError)
    requires rule.aggregation.Some?
    ensures ActCell(rule, group, c, a).outcome == Failed(error) <==> Meets(rule, group, a) && Refused(rule.aggregation.value, group, error)
  {
    hide CheckConditions, Upserted, Added, CurrentValue, Live;
    if a.Observe? {
      ConditionsMean(rule.conditions, a.e);
    }
  }

  lemma RefusedStoresNothing(rule: Rule, group: string, a: Act)
    requires rule.aggregation.Some? && !Accepted(rule.aggregation.value)
    ensures var r := ActCell(rule, group, None, a); r.cell.None? && !r.outcome.Raised?
  {
    hide CheckConditions, Added, CurrentValue;
  }

  /** The tumbling windows are about the accepted count and threshold rules. */
  lemma WindowedExactly(rule: Rule)
    ensures Windowed(rule) <==>
              && rule.aggregation.Some?
              && (rule.aggregation.value.kind.Count? || rule.aggregation.value.kind.Threshold?)
              && Accepted(rule.aggregation.value)
  {
  }

  /** The events that count: a count rule counts all that meet its conditions; sum, avg and max need a value
      that parses as a number, distinct_count does not. */
  lemma CountsExactly(rule: Rule, group: string, a: Act)
    requires Windowed(rule)
    ensures var agg := rule.aggregation.value;
            Counts(rule, group, a) <==>
              && Meets(rule, group, a)
              && (agg.kind.Threshold? && !agg.operator.DistinctCount? ==> agg.parseFloat(ExtractValueField(agg.valueField, a.e)).Some?)
  {
    hide CheckConditions;
    if a.Observe? {
      ConditionsMean(rule.conditions, a.e);
    }
  }

  /** Over every run, the last act fails with an error iff it meets the conditions and the configuration is
      refused with that error; a configuration that is not accepted stores no row and raises no alert. */
  lemma {:induction false} RefusedExactly(rule: Rule, group: string, h: seq<Act>)
    requires rule.aggregation.Some?
    ensures h != [] ==>
              forall error :: LastOutcome(rule, group, h) == Failed(error) <==>
                Meets(rule, group, h[|h| - 1]) && Refused(rule.aggregation.value, group, error)
    ensures !Accepted(rule.aggregation.value) ==>
              CellRun(rule, group, h).None? && (h != [] ==> !LastOutcome(rule, group, h).Raised?)
  {
    hide ActCell, Meets, Refused, Accepted;
    if h != [] {
      var init, a := h[..|h| - 1], h[|h| - 1];
      RefusedExactly(rule, group, init);
      forall error
        ensures LastOutcome(rule, group, h) == Failed(error) <==> Meets(rule, group, a) && Refused(rule.aggregation.value, group, error)
      {
        FailsExactly(rule, group, CellRun(rule, group, init), a, error);
      }
      if !Accepted(rule.aggregation.value) {
        RefusedStoresNothing(rule, group, a);
      }
    }
  }

  // ---------------------------------------------------------------- events without a key, sequences without steps

  /** An event that lacks the grouping field is skipped: over every run the empty key stores no row, and
      only a sequence rule without steps, which needs no row, raises an alert under it. */
  lemma {:induction false} KeylessSkipped(rule: Rule, h: seq<Act>)
    requires rule.aggregation.Some?
    ensures CellRun(rule, "", h).None?
    ensures h != [] && LastOutcome(rule, "", h).Raised? ==>
              rule.aggregation.value.kind.Sequence? && rule.aggregation.value.steps == []
  {
    hide CheckConditions, Added, CurrentValue;
    if h != [] {
      KeylessSkipped(rule, h[..|h| - 1]);
    }
  }

  /** A sequence rule without steps raises an alert at every event that starts it, whatever its group and
      window, and stores no row. */
  lemma {:induction false} SteplessFires(rule: Rule, group: string, h: seq<Act>)
    requires rule.aggregation.Some? && rule.aggregation.value.kind.Sequence? && rule.aggregation.value.steps == []
    ensures CellRun(rule, group, h).None?
    ensures h != [] ==>
              LastOutcome(rule, group, h) ==
                if Meets(rule, group, h[|h| - 1]) then Raised(SequenceAlert(1, group, [], 0, h[|h| - 1].e)) else Quiet
  {
    hide CheckConditions;
    if h != [] {
      var a := h[|h| - 1];
      SteplessFires(rule, group, h[..|h| - 1]);
      if a.Observe? {
        ConditionsMean(rule.conditions, a.e);
      }
    }
  }
}
