/** Sequence handlers running at once: stored progress and reported matches stay true, but one start can
    lead to more than one alert. */
module SequenceInterleaving {
  import opened Clock
  import opened Wrappers
  import opened Rules
  import opened State
  import opened Correlation
  import opened Tumbling
  import opened SequenceRules
  import opened HandlerInterleaving

  function TimesOf(ticks: seq<Tick>): (times: seq<Time>)
    ensures |times| == |ticks|
  {
    seq(|ticks|, i requires 0 <= i < |ticks| => ticks[i].now)
  }

  /** A start and then one event for each of the first steps, in order, none of which starts the sequence
      anew, all within the window from the start. */
  ghost predicate Match(rule: Rule, ticks: seq<Tick>)
    requires IsSequence(rule)
  {
    var agg := rule.aggregation.value;
    && 1 <= |ticks| <= |agg.steps| + 1
    && CheckConditions(rule.conditions, ticks[0].e)
    && Nondecreasing(TimesOf(ticks))
    && forall k :: 0 < k < |ticks| ==>
         && CheckConditions(agg.steps[k - 1], ticks[k].e)
         && !CheckConditions(rule.conditions, ticks[k].e)
         && ticks[k].now <= ticks[0].now + agg.window.length
  }

  /** The row is the progress of an incomplete match, and expires with the window of its start. */
  ghost predicate StoredProgress(rule: Rule, row: Row, ticks: seq<Tick>)
    requires IsSequence(rule)
  {
    && Match(rule, ticks)
    && |ticks| <= |rule.aggregation.value.steps|
    && row.data == Progress(|ticks|, TimesOf(ticks), ticks[0].e)
    && row.expiresAt == ticks[0].now + rule.aggregation.value.window.length
  }

  /** The alert reports a complete match: its start and the times of its steps. */
  ghost predicate ReportedMatch(rule: Rule, group: string, alert: Alert, ticks: seq<Tick>)
    requires IsSequence(rule)
  {
    var n := |rule.aggregation.value.steps| + 1;
    && Match(rule, ticks)
    && |ticks| == n
    && alert == SequenceAlert(n, group, Durations(TimesOf(ticks)), ticks[n - 1].now - ticks[0].now, ticks[0].e)
  }

  ghost function MatchMeaning(rule: Rule, group: string): Meaning
    requires IsSequence(rule)
  {
    Meaning((row, ticks) => StoredProgress(rule, row, ticks), (alert, ticks) => ReportedMatch(rule, group, alert, ticks))
  }

  lemma MatchAlone(rule: Rule, group: string, now: Time, e: Event)
    requires IsSequence(rule)
    ensures Means(MatchMeaning(rule, group), Decide(rule, group, None, now, e), [Tick(now, e)])
  {
    hide CheckConditions;
    assert TimesOf([Tick(now, e)]) == [now];
  }

  /** One more step. */
  lemma MatchGrows(rule: Rule, ticks: seq<Tick>, t: Tick)
    requires IsSequence(rule) && Match(rule, ticks) && |ticks| <= |rule.aggregation.value.steps| && UpTo(ticks, t.now)
    requires CheckConditions(rule.aggregation.value.steps[|ticks| - 1], t.e) && !CheckConditions(rule.conditions, t.e)
    requires t.now <= ticks[0].now + rule.aggregation.value.window.length
    ensures Match(rule, ticks + [t]) && TimesOf(ticks + [t]) == TimesOf(ticks) + [t.now]
  {
    hide CheckConditions;
    var all := ticks + [t];
    assert TimesOf(all) == TimesOf(ticks) + [t.now];
  }

  lemma MatchNext(rule: Rule, group: string, row: Row, ticks: seq<Tick>, now: Time, e: Event)
    requires IsSequence(rule) && StoredProgress(rule, row, ticks)
    requires UpTo(ticks, now) && !Expired(row, now) && Selects(rule, group, e)
    ensures Means(MatchMeaning(rule, group), Decide(rule, group, Some(row), now, e), ticks + [Tick(now, e)])
  {
    hide CheckConditions, Match, UpTo, Durations;
    assert 1 <= |ticks| <= |rule.aggregation.value.steps| by { MatchBounds(rule, ticks); }
    if CheckConditions(rule.aggregation.value.steps[|ticks| - 1], e) {
      MatchGrows(rule, ticks, Tick(now, e));
    }
  }

  lemma MatchBounds(rule: Rule, ticks: seq<Tick>)
    requires IsSequence(rule) && Match(rule, ticks)
    ensures 1 <= |ticks|
  {
  }

  lemma MatchSound(rule: Rule, group: string)
    requires IsSequence(rule)
    ensures Sound(rule, group, MatchMeaning(rule, group))
  {
    hide Decide, Selects, Means, Match;
    var m := MatchMeaning(rule, group);
    forall now: Time, e: Event ensures Means(m, Decide(rule, group, None, now, e), [Tick(now, e)]) {
      MatchAlone(rule, group, now, e);
    }
    forall row: Row, ticks: seq<Tick>, now: Time, e: Event |
      m.row(row, ticks) && ticks != [] && UpTo(ticks, now) && !Expired(row, now) && Selects(rule, group, e)
      ensures Means(m, Decide(rule, group, Some(row), now, e), ticks + [Tick(now, e)])
    {
      MatchNext(rule, group, row, ticks, now, e);
    }
  }

  /** Under every interleaving and failure, stored progress and reported matches are real: one true start,
      then for each step an event of another handler that matches it, in order, within one window. No
      handler panics. */
  lemma MatchesGenuine(rule: Rule, group: string, run: seq<Step>)
    requires IsSequence(rule) && Monotone(run)
    ensures var w := Run(rule, group, run);
            && (w.row.Some? ==>
                 && DistinctHandlers(w.uses) && AllSettled(w.handlers, w.uses)
                 && StoredProgress(rule, w.row.value, TicksOf(w.uses)))
            && (forall k :: 0 <= k < |w.alerts| ==>
                 && DistinctHandlers(w.alerts[k].uses) && AllSettled(w.handlers, w.alerts[k].uses)
                 && ReportedMatch(rule, group, w.alerts[k].alert, TicksOf(w.alerts[k].uses)))
            && (forall i :: 0 <= i < |w.handlers| ==> !w.handlers[i].phase.Crashed?)
  {
    hide Sound, Run, StoredProgress, ReportedMatch, AllSettled, DistinctHandlers;
    MatchSound(rule, group);
    RunGenuine(rule, group, MatchMeaning(rule, group), run);
  }

  // ---------------------------------------------------------------- one start, two alerts

  /** The handler of a start, and then two handlers that both read its row before one of them deletes it. */
  function Overlap(start: Event, step: Event, now: Time): seq<Step> {
    [Step(now, Arrive(start)), Step(now, Arrive(step)), Step(now, Arrive(step)),
     Step(now, Read(0, true)), Step(now, Save(0, true)), Step(now, Read(1, true)), Step(now, Read(2, true)),
     Step(now, Delete(1, true)), Step(now, Delete(2, true)), Step(now, Alert(1)), Step(now, Alert(2))]
  }

  lemma StartDecides(rule: Rule, group: string, start: Event, now: Time)
    requires IsSequence(rule) && group != "" && CheckConditions(rule.conditions, start)
    ensures Decide(rule, group, None, now, start)
              == Keep(Row(1, now, now, Progress(1, [now], start), now + rule.aggregation.value.window.length))
  {
  }

  lemma StepDecides(rule: Rule, group: string, start: Event, step: Event, now: Time)
    requires IsSequence(rule) && |rule.aggregation.value.steps| == 1 && rule.aggregation.value.window.length >= 0 && group != ""
    requires !CheckConditions(rule.conditions, step) && CheckConditions(rule.aggregation.value.steps[0], step)
    ensures var row := Row(1, now, now, Progress(1, [now], start), now + rule.aggregation.value.window.length);
            Decide(rule, group, Some(row), now, step) == Fire(SequenceAlert(2, group, [0], 0, start))
  {
    assert [now] + [now] == [now, now] && Durations([now, now]) == [0];
  }

  /** The handler of a step that reads the row of the start decides to raise an alert. */
  lemma StepReads(rule: Rule, group: string, start: Event, step: Event, now: Time, w: World, i: nat)
    requires IsSequence(rule) && |rule.aggregation.value.steps| == 1 && rule.aggregation.value.window.length >= 0 && group != ""
    requires !CheckConditions(rule.conditions, step) && CheckConditions(rule.aggregation.value.steps[0], step)
    requires w.row == Some(Row(1, now, now, Progress(1, [now], start), now + rule.aggregation.value.window.length))
    requires i < |w.handlers| && w.handlers[i] == Handler(step, now, Fresh) && w.uses == [Use(0, Tick(now, start))]
    ensures var own := [Use(0, Tick(now, start)), Use(i, Tick(now, step))];
            DoRead(rule, group, w, i, now, true)
              == w.(handlers := w.handlers[i := Handler(step, now, Deleting(SequenceAlert(2, group, [0], 0, start), own))])
  {
    hide Decide, CheckConditions;
    StepDecides(rule, group, start, step, now);
    assert [Use(0, Tick(now, start))] + [Use(i, Tick(now, step))] == [Use(0, Tick(now, start)), Use(i, Tick(now, step))];
  }

  /** The handler of a start that found no row saves its own. */
  lemma StartReads(rule: Rule, group: string, start: Event, now: Time, w: World)
    requires IsSequence(rule) && group != "" && CheckConditions(rule.conditions, start) && w.row.None?
    requires w.handlers != [] && w.handlers[0] == Handler(start, now, Fresh)
    ensures var row := Row(1, now, now, Progress(1, [now], start), now + rule.aggregation.value.window.length);
            var read := DoRead(rule, group, w, 0, now, true);
            && |read.handlers| == |w.handlers|
            && DoSave(read, 0, true)
              == World(Some(row), [Use(0, Tick(now, start))], w.handlers[0 := Handler(start, now, Done)], w.alerts)
  {
    hide Decide, CheckConditions;
    StartDecides(rule, group, start, now);
    assert [] + [Use(0, Tick(now, start))] == [Use(0, Tick(now, start))];
  }

  /** OneAlertPerStart needs handlers that do not overlap: here one start leads to two alerts, although
      every statement succeeds. */
  lemma OneStartTwoAlerts(rule: Rule, group: string, start: Event, step: Event, now: Time)
    requires IsSequence(rule) && |rule.aggregation.value.steps| == 1 && rule.aggregation.value.window.length >= 0 && group != ""
    requires CheckConditions(rule.conditions, start)
    requires !CheckConditions(rule.conditions, step) && CheckConditions(rule.aggregation.value.steps[0], step)
    ensures Monotone(Overlap(start, step, now))
    ensures var u, alert := Use(0, Tick(now, start)), SequenceAlert(2, group, [0], 0, start);
            Run(rule, group, Overlap(start, step, now)).alerts
              == [Report(alert, [u, Use(1, Tick(now, step))]), Report(alert, [u, Use(2, Tick(now, step))])]
  {
    hide DoRead, CheckConditions, Run;
    var run := Overlap(start, step, now);
    var arrived := [Handler(start, now, Fresh), Handler(step, now, Fresh), Handler(step, now, Fresh)];
    RunStep(rule, group, run, 0);
    RunStep(rule, group, run, 1);
    RunStep(rule, group, run, 2);
    var w3 := World(None, [], arrived, []);
    assert Run(rule, group, run[..3]) == w3;
    RunStep(rule, group, run, 3);
    RunStep(rule, group, run, 4);
    StartReads(rule, group, start, now, w3);
    var w5 := Run(rule, group, run[..5]);
    RunStep(rule, group, run, 5);
    StepReads(rule, group, start, step, now, w5, 1);
    RunStep(rule, group, run, 6);
    StepReads(rule, group, start, step, now, Run(rule, group, run[..6]), 2);
    TwoAlerts(rule, group, run, Run(rule, group, run[..7]));
  }

  /** Both handlers go on, whatever is in the table. */
  lemma TwoAlerts(rule: Rule, group: string, run: seq<Step>, w: World)
    requires ReadsAndSaves(rule) && |run| == 11 && w == Run(rule, group, run[..7])
    requires run[7].op == Delete(1, true) && run[8].op == Delete(2, true) && run[9].op == Alert(1) && run[10].op == Alert(2)
    requires |w.handlers| == 3 && w.handlers[1].phase.Deleting? && w.handlers[2].phase.Deleting? && w.alerts == []
    ensures var p, q := w.handlers[1].phase, w.handlers[2].phase;
            Run(rule, group, run).alerts == [Report(p.alert, p.uses), Report(q.alert, q.uses)]
  {
    RunStep(rule, group, run, 7);
    RunStep(rule, group, run, 8);
    RunStep(rule, group, run, 9);
    RunStep(rule, group, run, 10);
    assert run[..11] == run;
  }

  lemma RunStep(rule: Rule, group: string, run: seq<Step>, n: nat)
    requires ReadsAndSaves(rule) && n < |run|
    ensures Run(rule, group, run[..n + 1]) == Next(rule, group, Run(rule, group, run[..n]), run[n])
    ensures n == 0 ==> Run(rule, group, run[..n]) == World(None, [], [], [])
  {
    assert run[..n + 1][..n] == run[..n];
  }
}
