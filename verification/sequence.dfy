/** Sequence rules: the greedy one-row machine decides whether the steps embed, in order, into the
    events after the last start, inside the window. */
module SequenceRules {
  import opened Clock
  import opened Wrappers
  import opened Rules
  import opened State
  import opened Correlation
  import opened RulesEngine
  import opened Runs

  /** A sequence rule with at least one step and a valid window. */
  predicate IsSequence(rule: Rule) {
    && rule.aggregation.Some?
    && rule.aggregation.value.kind.Sequence?
    && rule.aggregation.value.window.Window?
    && rule.aggregation.value.steps != []
  }

  predicate IsEvent(rule: Rule, group: string, a: Act) {
    a.Observe? && Group(rule, a.e) == group
  }

  /** An event of the group that matches the top-level conditions: it always (re)starts. */
  predicate IsStart(rule: Rule, group: string, a: Act) {
    IsEvent(rule, group, a) && CheckConditions(rule.conditions, a.e)
  }

  /** An event of the group that matches step k. */
  predicate IsStep(rule: Rule, group: string, a: Act, k: nat)
    requires IsSequence(rule) && k < |rule.aggregation.value.steps|
  {
    IsEvent(rule, group, a) && CheckConditions(rule.aggregation.value.steps[k], a.e)
  }

  /** Position i is the last start of the run. */
  ghost predicate LastStart(rule: Rule, group: string, h: seq<Act>, i: nat) {
    && i < |h| && IsStart(rule, group, h[i])
    && forall j :: i < j < |h| ==> !IsStart(rule, group, h[j])
  }

  // ---------------------------------------------------------------- embeddings and the greedy match

  /** idx places the first |idx| steps, in order, on events at or after position `from`. */
  ghost predicate Embedding(rule: Rule, group: string, h: seq<Act>, from: nat, idx: seq<nat>)
    requires IsSequence(rule)
  {
    && |idx| <= |rule.aggregation.value.steps|
    && (forall k :: 0 <= k < |idx| ==> from <= idx[k] < |h| && IsStep(rule, group, h[idx[k]], k))
    && (forall k, l :: 0 <= k < l < |idx| ==> idx[k] < idx[l])
  }

  /** The first m steps embed into the events at or after position `from`. */
  ghost predicate Embeds(rule: Rule, group: string, h: seq<Act>, from: nat, m: nat)
    requires IsSequence(rule)
  {
    exists idx: seq<nat> :: |idx| == m && Embedding(rule, group, h, from, idx)
  }

  /** How many steps a greedy left-to-right match completes. */
  function Greedy(rule: Rule, group: string, h: seq<Act>, from: nat): (m: nat)
    requires IsSequence(rule)
    ensures m <= |rule.aggregation.value.steps|
  {
    if |h| <= from then 0
    else
      var m := Greedy(rule, group, h[..|h| - 1], from);
      if m < |rule.aggregation.value.steps| && IsStep(rule, group, h[|h| - 1], m) then m + 1 else m
  }

  /** An embedding into a prefix of a run is an embedding into the run. */
  lemma EmbeddingExtends(rule: Rule, group: string, h: seq<Act>, n: nat, from: nat, idx: seq<nat>)
    requires IsSequence(rule) && n <= |h| && Embedding(rule, group, h[..n], from, idx)
    ensures Embedding(rule, group, h, from, idx)
  {
    assert forall k :: 0 <= k < |idx| ==> h[..n][idx[k]] == h[idx[k]];
  }

  /** The times at which the greedy match completes its steps. */
  function GreedyTimes(rule: Rule, group: string, h: seq<Act>, from: nat): (times: seq<Time>)
    requires IsSequence(rule)
    ensures |times| == Greedy(rule, group, h, from)
  {
    if |h| <= from then []
    else
      var init, a := h[..|h| - 1], h[|h| - 1];
      var m := Greedy(rule, group, init, from);
      GreedyTimes(rule, group, init, from)
        + (if m < |rule.aggregation.value.steps| && IsStep(rule, group, a, m) then [a.now] else [])
  }

  /** The greedy match at the last act. */
  lemma GreedyUnfold(rule: Rule, group: string, h: seq<Act>, from: nat)
    requires IsSequence(rule) && from < |h|
    ensures var init, a := h[..|h| - 1], h[|h| - 1];
            var m, times := Greedy(rule, group, init, from), GreedyTimes(rule, group, init, from);
            var advances := m < |rule.aggregation.value.steps| && IsStep(rule, group, a, m);
            && Greedy(rule, group, h, from) == (if advances then m + 1 else m)
            && GreedyTimes(rule, group, h, from) == (if advances then times + [a.now] else times)
  {
  }

  /** The greedy match is realised by an embedding. */
  lemma {:induction false} GreedyEmbeds(rule: Rule, group: string, h: seq<Act>, from: nat)
    requires IsSequence(rule)
    ensures Embeds(rule, group, h, from, Greedy(rule, group, h, from))
  {
    if |h| <= from {
      assert Embedding(rule, group, h, from, []);
    } else {
      var init := h[..|h| - 1];
      GreedyEmbeds(rule, group, init, from);
      var m := Greedy(rule, group, init, from);
      var idx: seq<nat> :| |idx| == m && Embedding(rule, group, init, from, idx);
      EmbeddingExtends(rule, group, h, |init|, from, idx);
      if Greedy(rule, group, h, from) == m + 1 {
        assert Embedding(rule, group, h, from, idx + [|h| - 1]);
      }
    }
  }

  /** No embedding places more steps than the greedy match. */
  lemma {:induction false} GreedyIsBest(rule: Rule, group: string, h: seq<Act>, from: nat, idx: seq<nat>)
    requires IsSequence(rule) && Embedding(rule, group, h, from, idx)
    ensures |idx| <= Greedy(rule, group, h, from)
    decreases |h|
  {
    if |idx| > 0 {
      var n := |idx| - 1;
      assert from <= idx[n] < |h|;
      var init := h[..|h| - 1];
      if idx[n] < |h| - 1 {
        assert Embedding(rule, group, init, from, idx);
        GreedyIsBest(rule, group, init, from, idx);
      } else {
        assert Embedding(rule, group, init, from, idx[..n]);
        GreedyIsBest(rule, group, init, from, idx[..n]);
      }
    }
  }

  lemma GreedyExact(rule: Rule, group: string, h: seq<Act>, from: nat)
    requires IsSequence(rule)
    ensures var m := |rule.aggregation.value.steps|; Embeds(rule, group, h, from, m) <==> Greedy(rule, group, h, from) == m
  {
    var m := |rule.aggregation.value.steps|;
    GreedyEmbeds(rule, group, h, from);
    if Embeds(rule, group, h, from, m) {
      var idx: seq<nat> :| |idx| == m && Embedding(rule, group, h, from, idx);
      GreedyIsBest(rule, group, h, from, idx);
    }
  }

  // ---------------------------------------------------------------- the one-row machine

  /** The row after a run whose last start is at position i: the greedy match so far, or nothing once
      the match was completed or the clock has passed the window. */
  ghost predicate RowTracks(rule: Rule, group: string, h: seq<Act>, i: nat, c: Option<Row>, clock: Time)
    requires IsSequence(rule) && i < |h|
  {
    var agg := rule.aggregation.value;
    var m := Greedy(rule, group, h, i + 1);
    match c
    case None => m == |agg.steps| || clock > h[i].now + agg.window.length
    case Some(r) =>
      && m < |agg.steps|
      && r.data.Progress?
      && r.data.currentStep == m + 1 == r.counter
      && r.data.stepTimes == [h[i].now] + GreedyTimes(rule, group, h, i + 1)
      && r.lastSeen == r.data.stepTimes[|r.data.stepTimes| - 1]
      && h[i].Observe? && r.data.firstEvent == h[i].e
      && r.expiresAt == h[i].now + agg.window.length
  }

  /** The alert of a completed match whose last start is at position i. */
  function MatchAlert(rule: Rule, group: string, h: seq<Act>, i: nat): Alert
    requires IsSequence(rule) && i < |h|
  {
    SequenceAlert(|rule.aggregation.value.steps| + 1, group,
                  Durations([h[i].now] + GreedyTimes(rule, group, h, i + 1)),
                  h[|h| - 1].now - h[i].now,
                  if h[i].Observe? then h[i].e else Event(map[], map[]))
  }

  ghost predicate NoStart(rule: Rule, group: string, h: seq<Act>) {
    forall j :: 0 <= j < |h| ==> !IsStart(rule, group, h[j])
  }

  /** One act that is not a start, seen from the last start at position i. */
  lemma TrackStep(rule: Rule, group: string, h: seq<Act>, i: nat, c: Option<Row>)
    requires IsSequence(rule) && group != "" && i < |h| - 1
    requires !IsStart(rule, group, h[|h| - 1])
    requires RowTracks(rule, group, h[..|h| - 1], i, c, h[|h| - 1].now)
    ensures var agg, a := rule.aggregation.value, h[|h| - 1]; var r := ActCell(rule, group, c, a);
            && RowTracks(rule, group, h, i, r.cell, a.now)
            && (r.outcome.Raised? <==>
                 && a.now <= h[i].now + agg.window.length
                 && Greedy(rule, group, h, i + 1) == |agg.steps|
                 && Greedy(rule, group, h[..|h| - 1], i + 1) < |agg.steps|)
            && (r.outcome.Raised? ==> r.outcome.alert == MatchAlert(rule, group, h, i))
            && (r.cell.Some? ==> c.Some? && r.cell.value.firstSeen == c.value.firstSeen)
  {
    hide Durations, CheckConditions, Group, Greedy, GreedyTimes;
    var init, a := h[..|h| - 1], h[|h| - 1];
    GreedyUnfold(rule, group, h, i + 1);
    var times := GreedyTimes(rule, group, init, i + 1);
    assert [h[i].now] + (times + [a.now]) == [h[i].now] + times + [a.now];
    if !IsEvent(rule, group, a) {
      TrackIdle(rule, group, c, a);
    }
  }

  /** A sweep, or an event of another group: at most an expired row disappears. */
  lemma TrackIdle(rule: Rule, group: string, c: Option<Row>, a: Act)
    requires !IsEvent(rule, group, a)
    ensures var r := ActCell(rule, group, c, a); (r.cell == c || r.cell == Live(c, a.now)) && r.outcome.Quiet?
  {
  }

  /** A start leaves a fresh row behind, but for the first_seen of the row it overwrites. */
  lemma TrackStart(rule: Rule, group: string, h: seq<Act>, c: Option<Row>, now: Time)
    requires IsSequence(rule) && group != "" && h != [] && IsStart(rule, group, h[|h| - 1])
    ensures var d := ActCell(rule, group, c, h[|h| - 1]).cell;
            && RowTracks(rule, group, h, |h| - 1, d, now)
            && d.Some? && d.value.firstSeen == if c.Some? then c.value.firstSeen else h[|h| - 1].now
  {
  }

  /** A row appears with a start only. */
  lemma NothingToTrack(rule: Rule, group: string, a: Act)
    requires IsSequence(rule) && group != "" && !IsStart(rule, group, a)
    ensures ActCell(rule, group, None, a).cell.None?
  {
  }

  /** The row of a sequence rule after every run. */
  lemma {:induction false} TrackRun(rule: Rule, group: string, h: seq<Act>)
    requires IsSequence(rule) && group != "" && Monotone(h)
    ensures NoStart(rule, group, h) ==> CellRun(rule, group, h).None?
    ensures forall i, now :: LastStart(rule, group, h, i) && h[|h| - 1].now <= now ==>
              RowTracks(rule, group, h, i, CellRun(rule, group, h), now)
  {
    hide EvalCell;
    if h != [] {
      var init, a := h[..|h| - 1], h[|h| - 1];
      TrackRun(rule, group, init);
      var c := CellRun(rule, group, init);
      if IsStart(rule, group, a) {
        forall i, now | LastStart(rule, group, h, i) ensures RowTracks(rule, group, h, i, CellRun(rule, group, h), now) {
          TrackStart(rule, group, h, c, now);
          assert i == |h| - 1;
        }
      } else {
        if NoStart(rule, group, h) {
          assert NoStart(rule, group, init);
          NothingToTrack(rule, group, a);
        }
        forall i, now | LastStart(rule, group, h, i) && a.now <= now
          ensures RowTracks(rule, group, h, i, CellRun(rule, group, h), now)
        {
          assert LastStart(rule, group, init, i);
          assert RowTracks(rule, group, init, i, c, a.now);
          TrackStep(rule, group, h, i, c);
        }
      }
    }
  }

  /** The last act, seen from the last start before it. */
  lemma FiresFrom(rule: Rule, group: string, h: seq<Act>, i: nat)
    requires IsSequence(rule) && group != "" && Monotone(h) && h != []
    requires !IsStart(rule, group, h[|h| - 1]) && LastStart(rule, group, h[..|h| - 1], i)
    ensures var m, init, a := |rule.aggregation.value.steps|, h[..|h| - 1], h[|h| - 1];
            LastOutcome(rule, group, h).Raised? <==>
              && a.now <= h[i].now + rule.aggregation.value.window.length
              && Embeds(rule, group, h, i + 1, m)
              && !Embeds(rule, group, init, i + 1, m)
    ensures LastOutcome(rule, group, h).Raised? ==> LastOutcome(rule, group, h).alert == MatchAlert(rule, group, h, i)
  {
    hide EvalCell, Greedy, MatchAlert, RowTracks, IsStart, Embeds, CellRun;
    var init, a := h[..|h| - 1], h[|h| - 1];
    TrackRun(rule, group, init);
    assert RowTracks(rule, group, init, i, CellRun(rule, group, init), a.now);
    TrackStep(rule, group, h, i, CellRun(rule, group, init));
    GreedyExact(rule, group, h, i + 1);
    GreedyExact(rule, group, init, i + 1);
  }

  /** Starts raise no alert, and neither does anything before the first start. */
  lemma SilentWithoutStart(rule: Rule, group: string, h: seq<Act>)
    requires IsSequence(rule) && group != "" && Monotone(h) && h != []
    requires IsStart(rule, group, h[|h| - 1]) || NoStart(rule, group, h[..|h| - 1])
    ensures !LastOutcome(rule, group, h).Raised?
  {
    TrackRun(rule, group, h[..|h| - 1]);
  }

  /** Sequence exactness, over every run with sweeps and other groups mixed in: the last act raises an
      alert iff it is an event of the group that is not itself a start and, from the last start before
      it and within the window, it is the first event by which all the steps embed in order; the alert then
      reports that start and the times of the greedy match. */
  lemma SequenceExactness(rule: Rule, group: string, h: seq<Act>)
    requires IsSequence(rule) && group != "" && Monotone(h) && h != []
    ensures var m, init, a := |rule.aggregation.value.steps|, h[..|h| - 1], h[|h| - 1];
            LastOutcome(rule, group, h).Raised? <==>
              && !IsStart(rule, group, a)
              && exists i: nat :: && LastStart(rule, group, init, i)
                                  && a.now <= h[i].now + rule.aggregation.value.window.length
                                  && Embeds(rule, group, h, i + 1, m)
                                  && !Embeds(rule, group, init, i + 1, m)
    ensures LastOutcome(rule, group, h).Raised? ==>
              exists i: nat :: LastStart(rule, group, h[..|h| - 1], i) && LastOutcome(rule, group, h).alert == MatchAlert(rule, group, h, i)
  {
    hide LastOutcome;
    var init, a := h[..|h| - 1], h[|h| - 1];
    if IsStart(rule, group, a) || NoStart(rule, group, init) {
      SilentWithoutStart(rule, group, h);
    } else {
      var i := FindLastStart(rule, group, init);
      FiresFrom(rule, group, h, i);
      assert forall j :: LastStart(rule, group, init, j) ==> j == i;
    }
  }

  lemma {:induction false} FindLastStart(rule: Rule, group: string, h: seq<Act>) returns (i: nat)
    requires !NoStart(rule, group, h)
    ensures LastStart(rule, group, h, i)
  {
    if IsStart(rule, group, h[|h| - 1]) {
      i := |h| - 1;
    } else {
      i := FindLastStart(rule, group, h[..|h| - 1]);
    }
  }

  lemma FiringEmbeds(rule: Rule, group: string, h: seq<Act>, i: nat)
    requires IsSequence(rule) && group != "" && Monotone(h) && h != []
    requires LastOutcome(rule, group, h).Raised? && LastStart(rule, group, h[..|h| - 1], i)
    ensures Embeds(rule, group, h, i + 1, |rule.aggregation.value.steps|)
    ensures !Embeds(rule, group, h[..|h| - 1], i + 1, |rule.aggregation.value.steps|)
  {
    hide LastOutcome;
    if IsStart(rule, group, h[|h| - 1]) {
      SilentWithoutStart(rule, group, h);
    } else {
      FiresFrom(rule, group, h, i);
    }
  }

  lemma EmbedsLater(rule: Rule, group: string, h: seq<Act>, n: nat, from: nat, m: nat)
    requires IsSequence(rule) && n <= |h| && Embeds(rule, group, h[..n], from, m)
    ensures Embeds(rule, group, h, from, m)
  {
    var idx: seq<nat> :| |idx| == m && Embedding(rule, group, h[..n], from, idx);
    EmbeddingExtends(rule, group, h, n, from, idx);
  }

  /** Each start leads to at most one alert: the last act and an earlier one that both raise an alert
      have different last starts. */
  lemma OneAlertPerStart(rule: Rule, group: string, h: seq<Act>, j: nat, i: nat)
    requires IsSequence(rule) && group != "" && Monotone(h) && j < |h| - 1
    requires LastOutcome(rule, group, h).Raised? && LastOutcome(rule, group, h[..j + 1]).Raised?
    requires LastStart(rule, group, h[..j], i)
    ensures !LastStart(rule, group, h[..|h| - 1], i)
  {
    hide LastOutcome;
    if LastStart(rule, group, h[..|h| - 1], i) {
      var early, init, m := h[..j + 1], h[..|h| - 1], |rule.aggregation.value.steps|;
      assert early[..j] == h[..j] && init[..j + 1] == early;
      FiringEmbeds(rule, group, early, i);
      EmbedsLater(rule, group, init, j + 1, i + 1, m);
      FiringEmbeds(rule, group, h, i);
      assert false;
    }
  }

  // ---------------------------------------------------------------- which rules can fire at all

  /** An event of the group that matches step k and does not start the sequence anew. */
  predicate Advances(rule: Rule, group: string, e: Event, k: nat)
    requires IsSequence(rule) && k < |rule.aggregation.value.steps|
  {
    && Group(rule, e) == group
    && CheckConditions(rule.aggregation.value.steps[k], e)
    && !CheckConditions(rule.conditions, e)
  }

  /** Some event of the group starts the sequence. */
  ghost predicate Startable(rule: Rule, group: string) {
    exists e :: Group(rule, e) == group && CheckConditions(rule.conditions, e)
  }

  /** Step k can be reached by some event of the group that does not start the sequence anew. */
  ghost predicate Reachable(rule: Rule, group: string, k: nat)
    requires IsSequence(rule) && k < |rule.aggregation.value.steps|
  {
    exists e :: Advances(rule, group, e, k)
  }

  /** What a rule needs in order to be able to fire for a group. */
  ghost predicate Fireable(rule: Rule, group: string)
    requires IsSequence(rule)
  {
    && rule.aggregation.value.window.length >= 0
    && Startable(rule, group)
    && forall k: nat :: k < |rule.aggregation.value.steps| ==> Reachable(rule, group, k)
  }

  /** Some run raises an alert of the rule for the group. */
  ghost predicate CanFire(rule: Rule, group: string) {
    exists h: seq<Act> :: Monotone(h) && h != [] && LastOutcome(rule, group, h).Raised?
  }

  /** An alert needs an event that advances each step. */
  lemma AlertAdvances(rule: Rule, group: string, h: seq<Act>, i: nat, k: nat)
    requires IsSequence(rule) && h != [] && k < |rule.aggregation.value.steps|
    requires !IsStart(rule, group, h[|h| - 1]) && LastStart(rule, group, h[..|h| - 1], i)
    requires Embeds(rule, group, h, i + 1, |rule.aggregation.value.steps|)
    ensures Reachable(rule, group, k)
  {
    var idx: seq<nat> :| |idx| == |rule.aggregation.value.steps| && Embedding(rule, group, h, i + 1, idx);
    var a := h[idx[k]];
    assert IsStep(rule, group, a, k);
    if idx[k] < |h| - 1 {
      assert !IsStart(rule, group, h[..|h| - 1][idx[k]]);
    }
    assert Advances(rule, group, a.e, k);
  }

  lemma OnlyFireableFires(rule: Rule, group: string, h: seq<Act>)
    requires IsSequence(rule) && group != "" && Monotone(h) && h != [] && LastOutcome(rule, group, h).Raised?
    ensures Fireable(rule, group)
  {
    hide LastOutcome;
    SequenceExactness(rule, group, h);
    var init, m := h[..|h| - 1], |rule.aggregation.value.steps|;
    var i: nat :| && LastStart(rule, group, init, i)
                  && h[|h| - 1].now <= h[i].now + rule.aggregation.value.window.length
                  && Embeds(rule, group, h, i + 1, m);
    assert IsStart(rule, group, h[i]);
    assert Group(rule, h[i].e) == group && CheckConditions(rule.conditions, h[i].e);
    forall k: nat | k < m ensures Reachable(rule, group, k) {
      AlertAdvances(rule, group, h, i, k);
    }
  }

  /** One event for each of the first n steps. */
  lemma {:induction false} StepEvents(rule: Rule, group: string, n: nat) returns (es: seq<Event>)
    requires IsSequence(rule) && Fireable(rule, group) && n <= |rule.aggregation.value.steps|
    ensures |es| == n && forall k :: 0 <= k < n ==> Advances(rule, group, es[k], k)
  {
    if n == 0 {
      es := [];
    } else {
      var rest := StepEvents(rule, group, n - 1);
      assert Reachable(rule, group, n - 1);
      var e :| Advances(rule, group, e, n - 1);
      es := rest + [e];
    }
  }

  /** A start and then one event per step, all at one time. */
  function Chain(start: Event, es: seq<Event>): seq<Act> {
    if es == [] then [Observe(0, start)] else Chain(start, es[..|es| - 1]) + [Observe(0, es[|es| - 1])]
  }

  lemma {:induction false} ChainAdvances(rule: Rule, group: string, start: Event, es: seq<Event>)
    requires IsSequence(rule) && |es| <= |rule.aggregation.value.steps|
    requires Group(rule, start) == group && CheckConditions(rule.conditions, start)
    requires forall k :: 0 <= k < |es| ==> Advances(rule, group, es[k], k)
    ensures var h := Chain(start, es);
            && |h| == |es| + 1
            && (forall j :: 0 <= j < |h| ==> h[j].now == 0)
            && LastStart(rule, group, h, 0)
            && Greedy(rule, group, h, 1) == |es|
  {
    if es != [] {
      var init, h := Chain(start, es[..|es| - 1]), Chain(start, es);
      ChainAdvances(rule, group, start, es[..|es| - 1]);
      assert h[..|h| - 1] == init;
      assert IsStep(rule, group, h[|h| - 1], |es| - 1);
      assert !IsStart(rule, group, h[|h| - 1]);
      assert h[0] == init[0];
    }
  }

  lemma FireableFires(rule: Rule, group: string)
    requires IsSequence(rule) && group != "" && Fireable(rule, group)
    ensures CanFire(rule, group)
  {
    hide LastOutcome;
    var start :| Group(rule, start) == group && CheckConditions(rule.conditions, start);
    var m := |rule.aggregation.value.steps|;
    var es := StepEvents(rule, group, m);
    var h, init := Chain(start, es), Chain(start, es[..m - 1]);
    ChainAdvances(rule, group, start, es);
    ChainAdvances(rule, group, start, es[..m - 1]);
    assert h[..|h| - 1] == init;
    GreedyExact(rule, group, h, 1);
    GreedyExact(rule, group, init, 1);
    FiresFrom(rule, group, h, 0);
  }

  /** A sequence rule can raise an alert for a group, in some run, iff its window is not negative, some
      event of the group starts it, and every step has an event of the group that matches it without
      starting the sequence anew. */
  lemma CanFireExactly(rule: Rule, group: string)
    requires IsSequence(rule) && group != ""
    ensures CanFire(rule, group) <==> Fireable(rule, group)
  {
    hide LastOutcome, Fireable;
    if CanFire(rule, group) {
      var h: seq<Act> :| Monotone(h) && h != [] && LastOutcome(rule, group, h).Raised?;
      OnlyFireableFires(rule, group, h);
    }
    if Fireable(rule, group) {
      FireableFires(rule, group);
    }
  }

  // ---------------------------------------------------------------- regular expressions in steps

  /** No condition of any step is a regular expression. */
  ghost predicate NoRegexStep(rule: Rule)
    requires IsSequence(rule)
  {
    forall k, l :: 0 <= k < |rule.aggregation.value.steps| && 0 <= l < |rule.aggregation.value.steps[k]| ==>
      !rule.aggregation.value.steps[k][l].isRegex
  }

  /** A rule as decoded from the database or the cache: no compiled expression anywhere. */
  predicate Fresh(rule: Rule) {
    && (forall i :: 0 <= i < |rule.conditions| ==> !rule.conditions[i].compiled)
    && (rule.aggregation.Some? ==>
         forall k, l :: 0 <= k < |rule.aggregation.value.steps| && 0 <= l < |rule.aggregation.value.steps[k]| ==>
           !rule.aggregation.value.steps[k][l].compiled)
  }

  /** The rule as it would be if the regular expressions of its steps were compiled as well. */
  function WithCompiledSteps(rule: Rule): Rule
    requires rule.aggregation.Some?
  {
    var steps := rule.aggregation.value.steps;
    rule.(aggregation := Some(rule.aggregation.value.(
      steps := seq(|steps|, k requires 0 <= k < |steps| =>
        seq(|steps[k]|, l requires 0 <= l < |steps[k]| => CompiledCondition(steps[k][l]))))))
  }

  /** A step with an uncompiled regular expression matches nothing. */
  lemma UncompiledNeverAdvances(rule: Rule, group: string, k: nat, l: nat)
    requires IsSequence(rule)
    requires k < |rule.aggregation.value.steps| && l < |rule.aggregation.value.steps[k]|
    requires var c := rule.aggregation.value.steps[k][l]; c.isRegex && !c.compiled
    ensures !Reachable(rule, group, k)
  {
    forall e ensures !Advances(rule, group, e, k) {
      assert !CheckCondition(rule.aggregation.value.steps[k][l], e);
    }
  }

  lemma CompilingNothing(rule: Rule)
    requires IsSequence(rule) && NoRegexStep(rule)
    ensures WithCompiledSteps(rule) == rule
  {
    var steps, compiled := rule.aggregation.value.steps, WithCompiledSteps(rule).aggregation.value.steps;
    forall k | 0 <= k < |steps| ensures compiled[k] == steps[k] {
      assert forall l :: 0 <= l < |steps[k]| ==> compiled[k][l] == steps[k][l];
    }
    assert compiled == steps;
  }

  /** Only top-level regular expressions are ever compiled. So a sequence rule that LoadRules puts in
      force can fire for a group iff none of its steps uses a regular expression, and it could fire if
      they were all compiled. */
  lemma LoadedCanFireExactly(list: seq<Rule>, id: string, group: string)
    requires forall i :: 0 <= i < |list| ==> Fresh(list[i])
    requires id in Projection(list) && IsSequence(Projection(list)[id]) && group != ""
    ensures var rule := Projection(list)[id];
            CanFire(rule, group) <==> NoRegexStep(rule) && Fireable(WithCompiledSteps(rule), group)
  {
    hide CanFire;
    ProjectionExact(list, id);
    var i :| InForce(list, i) && list[i].id == id;
    var rule := Projection(list)[id];
    assert rule == Compiled(list[i]) && Fresh(list[i]);
    CanFireExactly(rule, group);
    if NoRegexStep(rule) {
      CompilingNothing(rule);
    } else {
      var k, l :| 0 <= k < |rule.aggregation.value.steps| && 0 <= l < |rule.aggregation.value.steps[k]|
                  && rule.aggregation.value.steps[k][l].isRegex;
      UncompiledNeverAdvances(rule, group, k, l);
    }
  }

  /** In particular no run of a loaded rule with a regular expression in a step raises an alert. */
  lemma LoadedRegexStepNeverFires(list: seq<Rule>, id: string, group: string, h: seq<Act>)
    requires forall i :: 0 <= i < |list| ==> Fresh(list[i])
    requires id in Projection(list) && IsSequence(Projection(list)[id]) && group != "" && Monotone(h) && h != []
    requires !NoRegexStep(Projection(list)[id])
    ensures !LastOutcome(Projection(list)[id], group, h).Raised?
  {
    hide LastOutcome, NoRegexStep, Projection;
    LoadedCanFireExactly(list, id, group);
    assert !CanFire(Projection(list)[id], group);
  }

  // ---------------------------------------------------------------- a witness

  /** Matches the events whose user has the given name. */
  function UserIs(name: string, isRegex: bool): Condition {
    Condition("username", isRegex, true, false, (e: Event) => FieldValue("username", e) == Some(name))
  }

  /** "a" then "b" within a minute, with "b" written as a regular expression. */
  const REGEX_RULE := Rule("r", true, [UserIs("a", false)], Some(Aggregation(
    Sequence, "", Window(60), 0, "", NoOperator, 0.0, s => None, [[UserIs("b", true)]])))

  /** The regular expression is what silences the rule: as loaded it cannot fire for its group, with its
      step compiled it can. */
  lemma RegexStepMatters()
    ensures Fresh(REGEX_RULE) && IsSequence(REGEX_RULE)
    ensures !CanFire(REGEX_RULE, "global")
    ensures CanFire(WithCompiledSteps(REGEX_RULE), "global")
  {
    hide CanFire;
    CanFireExactly(REGEX_RULE, "global");
    UncompiledNeverAdvances(REGEX_RULE, "global", 0, 0);
    var rule := WithCompiledSteps(REGEX_RULE);
    CanFireExactly(rule, "global");
    var a, b := Event(map["username" := "a"], map[]), Event(map["username" := "b"], map[]);
    assert CheckConditions(rule.conditions, a);
    assert rule.aggregation.value.steps[0][0] == CompiledCondition(UserIs("b", true));
    assert !CheckCondition(rule.conditions[0], b);
    assert Advances(rule, "global", b, 0);
  }
}
