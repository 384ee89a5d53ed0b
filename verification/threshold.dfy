/** What the accumulator of a threshold rule means, operator by operator. */
module ThresholdRules {
  import opened Clock
  import opened Wrappers
  import opened Rules
  import opened State
  import opened Correlation
  import opened Runs
  import opened Sequences
  import opened Tumbling
  import opened Configurations

  /** A threshold rule with an accepted configuration. */
  predicate IsThreshold(rule: Rule): (r: bool)
    ensures r <==> Windowed(rule) && rule.aggregation.value.kind.Threshold?
  {
    rule.aggregation.Some? && rule.aggregation.value.kind.Threshold? && Accepted(rule.aggregation.value)
  }

  function Text(agg: Aggregation, x: Tick): string {
    ExtractValueField(agg.valueField, x.e)
  }

  function Number(agg: Aggregation, x: Tick): Option<real> {
    agg.parseFloat(Text(agg, x))
  }

  /** Every value of the window parses, as the events that count do for sum, avg and max. */
  predicate Numeric(agg: Aggregation, p: seq<Tick>) {
    forall i :: 0 <= i < |p| ==> Number(agg, p[i]).Some?
  }

  function SumValues(agg: Aggregation, p: seq<Tick>): real
    requires Numeric(agg, p)
  {
    if p == [] then 0.0 else SumValues(agg, p[..|p| - 1]) + Number(agg, p[|p| - 1]).value
  }

  function Values(agg: Aggregation, p: seq<Tick>): set<string> {
    set i | 0 <= i < |p| && Text(agg, p[i]) != "" :: Text(agg, p[i])
  }

  /** sum and avg: the running sum and the number of events. */
  lemma {:induction false} SumOfWindow(agg: Aggregation, p: seq<Tick>)
    requires agg.kind.Threshold? && (agg.operator.Sum? || agg.operator.Avg?) && Numeric(agg, p)
    ensures Aggregate(agg, p) == Acc(SumValues(agg, p), |p|, [])
  {
    if p != [] {
      SumOfWindow(agg, p[..|p| - 1]);
    }
  }

  /** max: the largest value, or the initial 0 when none is positive. */
  lemma {:induction false} MaxOfWindow(agg: Aggregation, p: seq<Tick>)
    requires agg.kind.Threshold? && agg.operator.Max? && Numeric(agg, p)
    ensures var m := Aggregate(agg, p).accumulated;
            && m >= 0.0
            && (forall i :: 0 <= i < |p| ==> Number(agg, p[i]).value <= m)
            && (m == 0.0 || exists i :: 0 <= i < |p| && Number(agg, p[i]).value == m)
  {
    if p != [] {
      var n := |p| - 1;
      var init := p[..n];
      MaxOfWindow(agg, init);
      var m0, m := Aggregate(agg, init).accumulated, Aggregate(agg, p).accumulated;
      forall i | 0 <= i < |p| ensures Number(agg, p[i]).value <= m {
        if i < n {
          assert init[i] == p[i];
        }
      }
      if m == m0 && m != 0.0 {
        var i :| 0 <= i < |init| && Number(agg, init[i]).value == m0;
        assert p[i] == init[i];
      }
    }
  }

  /** distinct_count: a repetition-free list of exactly the non-empty values of the window. */
  lemma {:induction false} DistinctOfWindow(agg: Aggregation, p: seq<Tick>)
    requires agg.kind.Threshold? && agg.operator.DistinctCount?
    ensures var d := Aggregate(agg, p).distinct;
            && NoRepeats(d)
            && (set v | v in d) == Values(agg, p)
            && |d| == |Values(agg, p)|
  {
    var d := Aggregate(agg, p).distinct;
    if p != [] {
      var n := |p| - 1;
      DistinctOfWindow(agg, p[..n]);
      var d0 := Aggregate(agg, p[..n]).distinct;
      assert forall i :: 0 <= i < n ==> p[..n][i] == p[i];
      forall v ensures v in d <==> v in Values(agg, p) {
        if v in d {
          if v in d0 {
            assert v in Values(agg, p[..n]);
          }
        }
        if v in Values(agg, p) {
          var i :| 0 <= i < |p| && Text(agg, p[i]) == v && v != "";
          if i < n {
            assert Text(agg, p[..n][i]) == v;
            assert v in Values(agg, p[..n]);
            assert v in (set u | u in d0);
          }
        }
      }
    }
    NoRepeatsCardinality(d, Values(agg, p));
  }

  /** The operator's own measure of a window reaches threshold_value, or threshold when that is zero. */
  predicate MeasureReached(agg: Aggregation, p: seq<Tick>)
    requires p != [] && (agg.operator.DistinctCount? || Numeric(agg, p))
  {
    var limit := if agg.thresholdValue != 0.0 then agg.thresholdValue else agg.threshold as real;
    match agg.operator
    case Sum => SumValues(agg, p) >= limit
    case Avg => SumValues(agg, p) / |p| as real >= limit
    case Max => exists i :: 0 <= i < |p| && Number(agg, p[i]).value >= limit
    case DistinctCount => |Values(agg, p)| as real >= limit
    case _ => false
  }

  lemma MeasureExact(rule: Rule, p: seq<Tick>)
    requires IsThreshold(rule) && p != []
    requires rule.aggregation.value.operator.DistinctCount? || Numeric(rule.aggregation.value, p)
    ensures Reached(rule.aggregation.value, p) <==> MeasureReached(rule.aggregation.value, p)
  {
    var agg := rule.aggregation.value;
    match agg.operator
    case Sum | Avg => SumOfWindow(agg, p);
    case Max => MaxOfWindow(agg, p);
    case DistinctCount => DistinctOfWindow(agg, p);
    case _ =>
  }

  lemma {:induction false} TicksNumeric(rule: Rule, group: string, h: seq<Act>)
    requires IsThreshold(rule) && !rule.aggregation.value.operator.DistinctCount?
    ensures Numeric(rule.aggregation.value, Ticks(rule, group, h))
  {
    if h != [] {
      TicksNumeric(rule, group, h[..|h| - 1]);
    }
  }

  lemma LastNumeric(agg: Aggregation, parts: seq<seq<Tick>>)
    requires parts != [] && Numeric(agg, Flatten(parts))
    ensures Numeric(agg, parts[|parts| - 1])
  {
    hide Numeric, Flatten;
    var n := |parts| - 1;
    FlattenSnoc(parts[..n], parts[n]);
    assert parts == parts[..n] + [parts[n]];
    NumericTail(agg, Flatten(parts[..n]), parts[n]);
  }

  lemma NumericTail(agg: Aggregation, before: seq<Tick>, p: seq<Tick>)
    requires Numeric(agg, before + p)
    ensures Numeric(agg, p)
  {
    hide Number;
    forall i | 0 <= i < |p| ensures Number(agg, p[i]).Some? {
      assert (before + p)[|before| + i] == p[i];
    }
  }

  /** For every run: a threshold rule fires exactly at the counted events that bring the true measure
      of their tumbling window (sum, mean, maximum, number of distinct values) to the threshold. */
  lemma ThresholdExactness(rule: Rule, group: string, h: seq<Act>, parts: seq<seq<Tick>>)
    requires IsThreshold(rule) && group != "" && Monotone(h) && h != []
    requires Partition(rule.aggregation.value, parts, Ticks(rule, group, h))
    ensures var agg := rule.aggregation.value;
            LastOutcome(rule, group, h).Raised? <==>
              && Counts(rule, group, h[|h| - 1]) && parts != []
              && (agg.operator.DistinctCount? || Numeric(agg, parts[|parts| - 1]))
              && MeasureReached(agg, parts[|parts| - 1])
  {
    hide LastOutcome, Reached, MeasureReached, Counts, Ticks, CellOfParts, Numeric, Flatten, IsPart, Closed;
    var agg := rule.aggregation.value;
    TumblingExactness(rule, group, h, parts);
    if parts != [] {
      var p := parts[|parts| - 1];
      if !agg.operator.DistinctCount? {
        TicksNumeric(rule, group, h);
        LastNumeric(agg, parts);
      }
      PartNotEmpty(agg, p);
      MeasureExact(rule, p);
    }
  }

  /** The alert of a window: its group, the threshold that decided, the true measure of the window and, for
      sum and avg, the number of its events; for max, the value of the event that fired; for
      distinct_count, the distinct values themselves. */
  ghost predicate ReportsWindow(agg: Aggregation, group: string, p: seq<Tick>, alert: Alert)
    requires p != [] && (agg.operator.DistinctCount? || Numeric(agg, p))
  {
    && alert.ThresholdAlert?
    && alert.group == group
    && alert.thresholdValue == (if agg.thresholdValue != 0.0 then agg.thresholdValue else agg.threshold as real)
    && match agg.operator
       case Sum => alert.currentValue == SumValues(agg, p) && alert.eventCount == |p| && alert.distinct == []
       case Avg => alert.currentValue == SumValues(agg, p) / |p| as real && alert.eventCount == |p| && alert.distinct == []
       case Max =>
         && alert.currentValue == Number(agg, p[|p| - 1]).value && alert.eventCount == 0 && alert.distinct == []
         && forall i :: 0 <= i < |p| ==> Number(agg, p[i]).value <= alert.currentValue
       case DistinctCount =>
         && NoRepeats(alert.distinct) && (set v | v in alert.distinct) == Values(agg, p)
         && alert.currentValue == |Values(agg, p)| as real && alert.eventCount == 0
       case _ => false
  }

  lemma {:induction false} MaxCountsNothing(agg: Aggregation, p: seq<Tick>)
    requires agg.kind.Threshold? && (agg.operator.Max? || agg.operator.DistinctCount?)
    ensures Aggregate(agg, p).count == 0
  {
    if p != [] {
      MaxCountsNothing(agg, p[..|p| - 1]);
    }
  }

  /** The event that brings a max window to the threshold is its largest. */
  lemma MaxIsLast(rule: Rule, p: seq<Tick>)
    requires IsThreshold(rule) && rule.aggregation.value.operator.Max? && Numeric(rule.aggregation.value, p)
    requires IsPart(rule.aggregation.value, p) && Reached(rule.aggregation.value, p)
    ensures Aggregate(rule.aggregation.value, p).accumulated == Number(rule.aggregation.value, p[|p| - 1]).value
  {
    var agg, init := rule.aggregation.value, p[..|p| - 1];
    if |p| > 1 {
      assert !Reached(agg, init);
    }
  }

  lemma WindowReported(rule: Rule, group: string, p: seq<Tick>)
    requires IsThreshold(rule)
    requires rule.aggregation.value.operator.DistinctCount? || Numeric(rule.aggregation.value, p)
    requires IsPart(rule.aggregation.value, p) && Reached(rule.aggregation.value, p)
    ensures ReportsWindow(rule.aggregation.value, group, p, WindowAlert(rule.aggregation.value, group, p))
  {
    hide IsPart, Aggregate, SumValues, Values;
    var agg := rule.aggregation.value;
    assert p != [] by { PartNotEmpty(agg, p); }
    match agg.operator
    case Sum | Avg => SumOfWindow(agg, p);
    case Max => MaxOfWindow(agg, p); MaxIsLast(rule, p); MaxCountsNothing(agg, p);
    case DistinctCount => DistinctOfWindow(agg, p); MaxCountsNothing(agg, p);
    case _ =>
  }

  lemma PartNotEmpty(agg: Aggregation, p: seq<Tick>)
    requires agg.window.Window? && IsPart(agg, p)
    ensures p != []
  {
  }

  /** For every run: an alert of a threshold rule reports the true measure of the window it completes. */
  lemma ThresholdReports(rule: Rule, group: string, h: seq<Act>, parts: seq<seq<Tick>>)
    requires IsThreshold(rule) && group != "" && Monotone(h) && h != []
    requires Partition(rule.aggregation.value, parts, Ticks(rule, group, h)) && LastOutcome(rule, group, h).Raised?
    ensures var agg := rule.aggregation.value;
            && parts != [] && parts[|parts| - 1] != []
            && (agg.operator.DistinctCount? || Numeric(agg, parts[|parts| - 1]))
            && ReportsWindow(agg, group, parts[|parts| - 1], LastOutcome(rule, group, h).alert)
  {
    hide LastOutcome, Reached, MeasureReached, ReportsWindow, Counts, Ticks, CellOfParts, WindowAlert;
    TumblingExactness(rule, group, h, parts);
    ThresholdExactness(rule, group, h, parts);
    WindowReported(rule, group, parts[|parts| - 1]);
  }

  /** max is history-free: over every run the rule fires at a counted event iff that event's own
      value reaches threshold_value, or threshold when that is zero. */
  lemma MaxIsHistoryFree(rule: Rule, group: string, h: seq<Act>)
    requires IsThreshold(rule) && rule.aggregation.value.operator.Max? && group != ""
    requires Monotone(h) && h != [] && Counts(rule, group, h[|h| - 1])
    ensures var agg, a := rule.aggregation.value, h[|h| - 1];
            var value := agg.parseFloat(ExtractValueField(agg.valueField, a.e));
            && value.Some?
            && (LastOutcome(rule, group, h).Raised? <==>
                 value.value >= if agg.thresholdValue != 0.0 then agg.thresholdValue else agg.threshold as real)
  {
    RunKeepsInvariant(rule, group, h[..|h| - 1]);
  }
}
