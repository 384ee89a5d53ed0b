/** Threshold handlers running at once: what is stored or reported stays a true aggregate of distinct
    events of one window, although updates get lost and deleted rows come back. */
module ThresholdInterleaving {
  import opened Clock
  import opened Wrappers
  import opened Rules
  import opened State
  import opened Sequences
  import opened Correlation
  import opened Tumbling
  import opened ThresholdRules
  import opened HandlerInterleaving

  predicate IsWindowedThreshold(rule: Rule) {
    rule.aggregation.Some? && rule.aggregation.value.kind.Threshold? && rule.aggregation.value.window.Window?
  }

  // ---------------------------------------------------------------- soundness of an aggregate

  /** Events of one window, with values that count. */
  ghost predicate OneWindow(agg: Aggregation, ticks: seq<Tick>)
    requires agg.window.Window?
  {
    && ticks != []
    && (forall i :: 0 < i < |ticks| ==> ticks[0].now <= ticks[i].now <= ticks[0].now + agg.window.length)
    && (agg.operator.DistinctCount? || Numeric(agg, ticks))
  }

  /** The row is the aggregate of the events, below the threshold, and expires with their window. */
  ghost predicate StoredAggregate(agg: Aggregation, row: Row, ticks: seq<Tick>)
    requires agg.window.Window?
  {
    && OneWindow(agg, ticks)
    && row.data == Accumulated(Aggregate(agg, ticks))
    && row.expiresAt == ticks[0].now + agg.window.length
    && CurrentValue(agg, Aggregate(agg, ticks)) < EffectiveThreshold(agg)
  }

  /** The alert reports the aggregate of the events, at or above the threshold. */
  ghost predicate ReportedAggregate(agg: Aggregation, group: string, alert: Alert, ticks: seq<Tick>)
    requires agg.window.Window?
  {
    && OneWindow(agg, ticks)
    && alert == ThresholdAlertOf(agg, group, Aggregate(agg, ticks))
    && CurrentValue(agg, Aggregate(agg, ticks)) >= EffectiveThreshold(agg)
  }

  ghost function AggregateMeaning(agg: Aggregation, group: string): Meaning
    requires agg.window.Window?
  {
    Meaning((row, ticks) => StoredAggregate(agg, row, ticks), (alert, ticks) => ReportedAggregate(agg, group, alert, ticks))
  }

  /** One more event keeps the aggregate true. */
  lemma OneWindowGrows(agg: Aggregation, ticks: seq<Tick>, t: Tick, acc: Accumulator)
    requires agg.kind.Threshold? && agg.window.Window?
    requires ticks != [] ==> OneWindow(agg, ticks) && ticks[0].now <= t.now <= ticks[0].now + agg.window.length
    requires Added(agg, Aggregate(agg, ticks), t.e) == Some(acc)
    ensures OneWindow(agg, ticks + [t]) && Aggregate(agg, ticks + [t]) == acc
  {
    assert (ticks + [t])[..|ticks|] == ticks;
    AddedNumeric(agg, Aggregate(agg, ticks), t);
  }

  lemma AddedNumeric(agg: Aggregation, before: Accumulator, x: Tick)
    requires Added(agg, before, x.e).Some?
    ensures agg.operator.DistinctCount? || Number(agg, x).Some?
  {
  }

  lemma AggregateAlone(rule: Rule, group: string, now: Time, e: Event)
    requires IsWindowedThreshold(rule)
    ensures Means(AggregateMeaning(rule.aggregation.value, group), Decide(rule, group, None, now, e), [Tick(now, e)])
  {
    hide Added, CurrentValue, EffectiveThreshold, OneWindow, CheckConditions, ThresholdError;
    var agg := rule.aggregation.value;
    var next := Added(agg, EmptyAcc, e);
    if next.Some? {
      OneWindowGrows(agg, [], Tick(now, e), next.value);
      assert [] + [Tick(now, e)] == [Tick(now, e)];
    }
  }

  lemma AggregateNext(rule: Rule, group: string, row: Row, ticks: seq<Tick>, now: Time, e: Event)
    requires IsWindowedThreshold(rule) && StoredAggregate(rule.aggregation.value, row, ticks)
    requires UpTo(ticks, now) && !Expired(row, now) && Selects(rule, group, e)
    ensures Means(AggregateMeaning(rule.aggregation.value, group), Decide(rule, group, Some(row), now, e), ticks + [Tick(now, e)])
  {
    hide Added, Aggregate, CurrentValue, EffectiveThreshold, CheckConditions, ThresholdError;
    var agg := rule.aggregation.value;
    var next := Added(agg, Aggregate(agg, ticks), e);
    if next.Some? {
      OneWindowGrows(agg, ticks, Tick(now, e), next.value);
    }
  }

  lemma AggregateSound(rule: Rule, group: string)
    requires IsWindowedThreshold(rule)
    ensures Sound(rule, group, AggregateMeaning(rule.aggregation.value, group))
  {
    hide Decide, Selects, Means;
    var m := AggregateMeaning(rule.aggregation.value, group);
    forall now: Time, e: Event ensures Means(m, Decide(rule, group, None, now, e), [Tick(now, e)]) {
      AggregateAlone(rule, group, now, e);
    }
    forall row: Row, ticks: seq<Tick>, now: Time, e: Event |
      m.row(row, ticks) && ticks != [] && UpTo(ticks, now) && !Expired(row, now) && Selects(rule, group, e)
      ensures Means(m, Decide(rule, group, Some(row), now, e), ticks + [Tick(now, e)])
    {
      AggregateNext(rule, group, row, ticks, now, e);
    }
  }

  /** Under every interleaving and failure, whatever is stored or reported is the exact aggregate of events
      of distinct handlers lying in one window; stored ones are below the threshold, reported ones not. */
  lemma AggregatesGenuine(rule: Rule, group: string, run: seq<Step>)
    requires IsWindowedThreshold(rule) && Monotone(run)
    ensures var agg, w := rule.aggregation.value, Run(rule, group, run);
            && (w.row.Some? ==>
                 && DistinctHandlers(w.uses) && AllSettled(w.handlers, w.uses)
                 && StoredAggregate(agg, w.row.value, TicksOf(w.uses)))
            && (forall k :: 0 <= k < |w.alerts| ==>
                 && DistinctHandlers(w.alerts[k].uses) && AllSettled(w.handlers, w.alerts[k].uses)
                 && ReportedAggregate(agg, group, w.alerts[k].alert, TicksOf(w.alerts[k].uses)))
  {
    hide Sound, Run, StoredAggregate, ReportedAggregate, AllSettled, DistinctHandlers;
    AggregateSound(rule, group);
    RunGenuine(rule, group, AggregateMeaning(rule.aggregation.value, group), run);
  }

  // ---------------------------------------------------------------- sums and distinct values

  /** The handler has finished, and read its clock inside the span. */
  predicate InSpan(h: Handler, from: Time, to: Time) {
    h.phase.Done? && from <= h.at <= to
  }

  function Spanned(handlers: seq<Handler>, from: Time, to: Time): set<nat> {
    set i | 0 <= i < |handlers| && InSpan(handlers[i], from, to)
  }

  function ValueOf(agg: Aggregation, h: Handler): real {
    var v := Number(agg, Tick(h.at, h.e));
    if v.None? then 0.0 else v.value
  }

  /** The sum of the values of the chosen handlers' events. */
  function TotalOf(agg: Aggregation, handlers: seq<Handler>, chosen: set<nat>): real {
    if handlers == [] then 0.0
    else
      var n := |handlers| - 1;
      TotalOf(agg, handlers[..n], chosen) + (if n in chosen then ValueOf(agg, handlers[n]) else 0.0)
  }

  lemma {:induction false} TotalAdds(agg: Aggregation, handlers: seq<Handler>, chosen: set<nat>, i: nat)
    requires i !in chosen
    ensures TotalOf(agg, handlers, chosen + {i}) ==
              TotalOf(agg, handlers, chosen) + (if i < |handlers| then ValueOf(agg, handlers[i]) else 0.0)
  {
    if handlers != [] {
      TotalAdds(agg, handlers[..|handlers| - 1], chosen, i);
    }
  }

  lemma {:induction false} TotalGrows(agg: Aggregation, handlers: seq<Handler>, some: set<nat>, more: set<nat>)
    requires some <= more && forall h :: h in handlers ==> ValueOf(agg, h) >= 0.0
    ensures TotalOf(agg, handlers, some) <= TotalOf(agg, handlers, more)
  {
    if handlers != [] {
      TotalGrows(agg, handlers[..|handlers| - 1], some, more);
    }
  }

  lemma {:induction false} TotalEmpty(agg: Aggregation, handlers: seq<Handler>)
    ensures TotalOf(agg, handlers, {}) == 0.0
  {
    if handlers != [] {
      TotalEmpty(agg, handlers[..|handlers| - 1]);
    }
  }

  function Users(uses: seq<Use>): set<nat> {
    set k | 0 <= k < |uses| :: uses[k].handler
  }

  /** The sum over distinct handlers' events is the total over those handlers. */
  lemma {:induction false} SumIsTotal(agg: Aggregation, handlers: seq<Handler>, uses: seq<Use>)
    requires forall i, j :: 0 <= i < j < |uses| ==> uses[i].handler != uses[j].handler
    requires AllSettled(handlers, uses) && Numeric(agg, TicksOf(uses))
    ensures SumValues(agg, TicksOf(uses)) == TotalOf(agg, handlers, Users(uses))
  {
    if uses == [] {
      TotalEmpty(agg, handlers);
      assert Users(uses) == {};
    } else {
      var n := |uses| - 1;
      var init, u := uses[..n], uses[n];
      assert TicksOf(uses)[..n] == TicksOf(init);
      SumIsTotal(agg, handlers, init);
      assert Settled(handlers, u);
      assert forall k :: 0 <= k < n ==> init[k] == uses[k];
      TotalAdds(agg, handlers, Users(init), u.handler);
      assert Users(uses) == Users(init) + {u.handler};
    }
  }

  lemma UsersSpanned(agg: Aggregation, handlers: seq<Handler>, uses: seq<Use>)
    requires agg.window.Window? && agg.window.length >= 0
    requires OneWindow(agg, TicksOf(uses)) && AllSettled(handlers, uses)
    ensures Users(uses) <= Spanned(handlers, uses[0].tick.now, uses[0].tick.now + agg.window.length)
  {
    forall k | 0 <= k < |uses|
      ensures uses[k].handler in Spanned(handlers, uses[0].tick.now, uses[0].tick.now + agg.window.length)
    {
      assert Settled(handlers, uses[k]);
      assert TicksOf(uses)[k] == uses[k].tick;
    }
  }

  lemma SumReportReal(agg: Aggregation, group: string, handlers: seq<Handler>, r: Report)
    requires agg.kind.Threshold? && agg.operator.Sum? && agg.window.Window? && agg.window.length >= 0
    requires DistinctHandlers(r.uses) && AllSettled(handlers, r.uses)
    requires ReportedAggregate(agg, group, r.alert, TicksOf(r.uses))
    requires forall h :: h in handlers ==> ValueOf(agg, h) >= 0.0
    ensures r.alert.ThresholdAlert?
    ensures var from := r.uses[0].tick.now;
            EffectiveThreshold(agg) <= r.alert.currentValue
              <= TotalOf(agg, handlers, Spanned(handlers, from, from + agg.window.length))
  {
    var from := r.uses[0].tick.now;
    SumOfWindow(agg, TicksOf(r.uses));
    SumIsTotal(agg, handlers, r.uses);
    UsersSpanned(agg, handlers, r.uses);
    TotalGrows(agg, handlers, Users(r.uses), Spanned(handlers, from, from + agg.window.length));
  }

  /** With non-negative values, a sum alert under any interleaving is never spurious: the values really
      handled within one window length add up to the threshold at least. */
  lemma SumAlertsReal(rule: Rule, group: string, run: seq<Step>, k: nat)
    requires IsWindowedThreshold(rule) && rule.aggregation.value.operator.Sum? && rule.aggregation.value.window.length >= 0
    requires Monotone(run) && k < |Run(rule, group, run).alerts|
    requires forall h :: h in Run(rule, group, run).handlers ==> ValueOf(rule.aggregation.value, h) >= 0.0
    ensures var agg, w := rule.aggregation.value, Run(rule, group, run); var r := w.alerts[k];
            && r.uses != [] && r.alert.ThresholdAlert?
            && var from := r.uses[0].tick.now;
            EffectiveThreshold(agg) <= r.alert.currentValue
              <= TotalOf(agg, w.handlers, Spanned(w.handlers, from, from + agg.window.length))
  {
    hide Run, ReportedAggregate, AllSettled, TotalOf, Spanned, EffectiveThreshold;
    AggregatesGenuine(rule, group, run);
    SumReportReal(rule.aggregation.value, group, Run(rule, group, run).handlers, Run(rule, group, run).alerts[k]);
  }

  /** Some handler that read its clock inside the span had this value. */
  ghost predicate SeenIn(agg: Aggregation, handlers: seq<Handler>, from: Time, to: Time, v: string) {
    exists i :: i in Spanned(handlers, from, to) && ExtractValueField(agg.valueField, handlers[i].e) == v
  }

  /** An alert that lists, without repetition, enough values really seen within one window length. */
  ghost predicate ListsSeen(agg: Aggregation, handlers: seq<Handler>, r: Report)
    requires agg.window.Window?
  {
    && r.uses != [] && r.alert.ThresholdAlert?
    && NoRepeats(r.alert.distinct)
    && |r.alert.distinct| as real >= EffectiveThreshold(agg)
    && var from := r.uses[0].tick.now;
    forall v :: v in r.alert.distinct ==> v != "" && SeenIn(agg, handlers, from, from + agg.window.length, v)
  }

  lemma DistinctReportReal(agg: Aggregation, group: string, handlers: seq<Handler>, r: Report)
    requires agg.kind.Threshold? && agg.operator.DistinctCount? && agg.window.Window? && agg.window.length >= 0
    requires DistinctHandlers(r.uses) && AllSettled(handlers, r.uses)
    requires ReportedAggregate(agg, group, r.alert, TicksOf(r.uses))
    ensures ListsSeen(agg, handlers, r)
  {
    var p, from := TicksOf(r.uses), r.uses[0].tick.now;
    DistinctOfWindow(agg, p);
    UsersSpanned(agg, handlers, r.uses);
    forall v | v in r.alert.distinct ensures v != "" && SeenIn(agg, handlers, from, from + agg.window.length, v) {
      assert v in (set u | u in r.alert.distinct);
      assert v in Values(agg, p);
      var j :| 0 <= j < |p| && Text(agg, p[j]) == v && v != "";
      assert Settled(handlers, r.uses[j]);
      assert r.uses[j].handler in Users(r.uses);
    }
  }

  /** A distinct_count alert under any interleaving lists, without repetition, at least `threshold`
      non-empty values, each the value of an event really handled within one window length. */
  lemma DistinctAlertsReal(rule: Rule, group: string, run: seq<Step>, k: nat)
    requires IsWindowedThreshold(rule) && rule.aggregation.value.operator.DistinctCount?
    requires rule.aggregation.value.window.length >= 0 && Monotone(run) && k < |Run(rule, group, run).alerts|
    ensures ListsSeen(rule.aggregation.value, Run(rule, group, run).handlers, Run(rule, group, run).alerts[k])
  {
    hide Run, ReportedAggregate, AllSettled, ListsSeen;
    AggregatesGenuine(rule, group, run);
    DistinctReportReal(rule.aggregation.value, group, Run(rule, group, run).handlers, Run(rule, group, run).alerts[k]);
  }
}
