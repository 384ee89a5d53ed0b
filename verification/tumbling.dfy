/** Count and threshold rules decide the tumbling partition of their events. The partition is stated
    on its own, over the whole history; the engine only ever keeps one row. */
module Tumbling {
  import opened Clock
  import opened Wrappers
  import opened Rules
  import opened State
  import opened Correlation
  import opened Runs
  import opened Sequences

  /** An event that counts, with the time it was handled. */
  datatype Tick = Tick(now: Time, e: Event)

  /** A count or threshold rule whose configuration is accepted. */
  predicate Windowed(rule: Rule) {
    rule.aggregation.Some? &&
    var agg := rule.aggregation.value;
    match agg.kind
    case Count => CountError(agg).None?
    case Threshold => ThresholdError(agg).None? && !agg.operator.UnknownOperator?
    case _ => false
  }

  /** Does this event take part in the aggregation? A threshold rule skips unparseable values. */
  predicate Counts(rule: Rule, group: string, a: Act)
    requires Windowed(rule)
  {
    && a.Observe?
    && Group(rule, a.e) == group
    && CheckConditions(rule.conditions, a.e)
    && (rule.aggregation.value.kind.Threshold? ==> Added(rule.aggregation.value, EmptyAcc, a.e).Some?)
  }

  /** The events of a run that count, in order. */
  function Ticks(rule: Rule, group: string, h: seq<Act>): seq<Tick>
    requires Windowed(rule)
  {
    if h == [] then []
    else
      var a := h[|h| - 1];
      Ticks(rule, group, h[..|h| - 1]) + (if Counts(rule, group, a) then [Tick(a.now, a.e)] else [])
  }

  /** The aggregate of a list of events. */
  function Aggregate(agg: Aggregation, p: seq<Tick>): Accumulator {
    if p == [] then EmptyAcc
    else Accumulate(agg, Aggregate(agg, p[..|p| - 1]), p[|p| - 1].e)
  }

  function Accumulate(agg: Aggregation, acc: Accumulator, e: Event): Accumulator {
    if agg.kind.Count? then acc.(count := acc.count + 1)
    else match Added(agg, acc, e)
      case None => acc
      case Some(next) => next
  }

  /** The aggregate has reached the rule's threshold. */
  predicate Reached(agg: Aggregation, p: seq<Tick>) {
    if agg.kind.Count? then Aggregate(agg, p).count >= agg.threshold
    else CurrentValue(agg, Aggregate(agg, p)) >= EffectiveThreshold(agg)
  }

  /** One window: it lasts at most the window length after its first event, and the threshold is
      reached at its last event or not at all. */
  ghost predicate IsPart(agg: Aggregation, p: seq<Tick>)
    requires agg.window.Window?
  {
    && p != []
    && (forall i :: 0 <= i < |p| ==> p[i].now <= p[0].now + agg.window.length || i == 0)
    && (forall n :: 0 < n < |p| ==> !Reached(agg, p[..n]))
  }

  /** A window is closed for an event at `now`: it fired, or it ran out. */
  predicate Closed(agg: Aggregation, p: seq<Tick>, now: Time)
    requires agg.window.Window? && p != []
  {
    Reached(agg, p) || now > p[0].now + agg.window.length
  }

  /** The tumbling partition of a list of events: consecutive windows, each opened by the first
      event that finds the previous one closed. */
  ghost predicate Partition(agg: Aggregation, parts: seq<seq<Tick>>, ticks: seq<Tick>)
    requires agg.window.Window?
  {
    && Flatten(parts) == ticks
    && (forall k :: 0 <= k < |parts| ==> IsPart(agg, parts[k]))
    && (forall k :: 0 <= k < |parts| - 1 ==> Closed(agg, parts[k], parts[k + 1][0].now))
  }

  /** The window an event at `now` falls into, or [] when it opens a new one. */
  function OpenPart(agg: Aggregation, parts: seq<seq<Tick>>, now: Time): seq<Tick>
    requires agg.window.Window?
  {
    if parts != [] && parts[|parts| - 1] != [] && !Closed(agg, parts[|parts| - 1], now) then parts[|parts| - 1] else []
  }

  /** One more event: it joins the open window or opens the next one. */
  function Extend(agg: Aggregation, parts: seq<seq<Tick>>, x: Tick): (r: seq<seq<Tick>>)
    requires agg.window.Window?
    ensures r != [] && r[|r| - 1] == OpenPart(agg, parts, x.now) + [x]
  {
    if OpenPart(agg, parts, x.now) != [] then parts[..|parts| - 1] + [parts[|parts| - 1] + [x]]
    else parts + [[x]]
  }

  /** Cutting the last event off a window leaves a window that is still open for it. */
  lemma PartShrinks(agg: Aggregation, p: seq<Tick>)
    requires agg.window.Window? && IsPart(agg, p) && |p| > 1
    ensures IsPart(agg, p[..|p| - 1]) && !Closed(agg, p[..|p| - 1], p[|p| - 1].now)
  {
    var cut := p[..|p| - 1];
    forall n | 0 < n < |cut| ensures !Reached(agg, cut[..n]) {
      assert cut[..n] == p[..n];
    }
  }

  lemma PartGrows(agg: Aggregation, p: seq<Tick>, x: Tick)
    requires agg.window.Window? && IsPart(agg, p) && !Closed(agg, p, x.now)
    ensures IsPart(agg, p + [x])
  {
    forall n | 0 < n < |p + [x]| ensures !Reached(agg, (p + [x])[..n]) {
      assert (p + [x])[..n] == p[..n];
      assert p[..|p|] == p;
    }
  }

  /** Taking the last event off a partition leaves the partition of the shorter list. */
  lemma PartitionShrinks(agg: Aggregation, parts: seq<seq<Tick>>, ticks: seq<Tick>) returns (shorter: seq<seq<Tick>>)
    requires agg.window.Window? && Partition(agg, parts, ticks) && ticks != []
    ensures Partition(agg, shorter, ticks[..|ticks| - 1])
    ensures parts == Extend(agg, shorter, ticks[|ticks| - 1])
  {
    hide Reached, Closed;
    var n := |parts| - 1;
    var last := parts[n];
    var x := last[|last| - 1];
    assert parts == parts[..n] + [last];
    if |last| == 1 {
      shorter := parts[..n];
      assert last == [x];
      assert ticks == Flatten(shorter) + [x];
    } else {
      var cut := last[..|last| - 1];
      PartShrinks(agg, last);
      shorter := parts[..n] + [cut];
      FlattenSnoc(parts[..n], cut);
      assert ticks == Flatten(shorter) + [x];
      assert shorter[..n] == parts[..n] && last == cut + [x];
    }
  }

  /** Extending a partition gives the partition of the longer list. */
  lemma PartitionGrows(agg: Aggregation, parts: seq<seq<Tick>>, ticks: seq<Tick>, x: Tick)
    requires agg.window.Window? && Partition(agg, parts, ticks)
    ensures Partition(agg, Extend(agg, parts, x), ticks + [x])
  {
    hide Reached, Flatten;
    if OpenPart(agg, parts, x.now) != [] {
      var n := |parts| - 1;
      PartGrows(agg, parts[n], x);
      FlattenSnoc(parts[..n], parts[n] + [x]);
      FlattenSnoc(parts[..n], parts[n]);
      assert parts == parts[..n] + [parts[n]];
    } else {
      FlattenSnoc(parts, [x]);
      assert IsPart(agg, [x]);
    }
  }

  /** There is exactly one tumbling partition. */
  lemma {:induction false} PartitionUnique(agg: Aggregation, ps: seq<seq<Tick>>, qs: seq<seq<Tick>>, ticks: seq<Tick>)
    requires agg.window.Window? && Partition(agg, ps, ticks) && Partition(agg, qs, ticks)
    ensures ps == qs
    decreases |ticks|
  {
    if ticks == [] {
      EmptyPartition(agg, ps);
      EmptyPartition(agg, qs);
    } else {
      var ps' := PartitionShrinks(agg, ps, ticks);
      var qs' := PartitionShrinks(agg, qs, ticks);
      PartitionUnique(agg, ps', qs', ticks[..|ticks| - 1]);
    }
  }

  lemma EmptyPartition(agg: Aggregation, parts: seq<seq<Tick>>)
    requires agg.window.Window? && Partition(agg, parts, [])
    ensures parts == []
  {
  }

  /** The partition, one event at a time. */
  function Parts(agg: Aggregation, ticks: seq<Tick>): seq<seq<Tick>>
    requires agg.window.Window?
  {
    if ticks == [] then [] else Extend(agg, Parts(agg, ticks[..|ticks| - 1]), ticks[|ticks| - 1])
  }

  /** Parts is the tumbling partition. */
  lemma {:induction false} PartsPartition(agg: Aggregation, ticks: seq<Tick>)
    requires agg.window.Window?
    ensures Partition(agg, Parts(agg, ticks), ticks)
  {
    if ticks != [] {
      var init, x := ticks[..|ticks| - 1], ticks[|ticks| - 1];
      PartsPartition(agg, init);
      PartitionGrows(agg, Parts(agg, init), init, x);
      assert ticks == init + [x];
    }
  }

  // ---------------------------------------------------------------- the one-row machine decides the partition

  /** The row of an open window: the number of its events, its first and last one, its aggregate, and an
      expiry fixed by the first. */
  ghost predicate RowOfPart(agg: Aggregation, p: seq<Tick>, r: Row)
    requires agg.window.Window? && p != []
  {
    && r.expiresAt == p[0].now + agg.window.length
    && r.counter == |p| && r.firstSeen == p[0].now && r.lastSeen == p[|p| - 1].now
    && (agg.kind.Threshold? ==> r.data == Accumulated(Aggregate(agg, p)))
  }

  /** No row once the last window fired; else its row, which may be gone once the clock passed it. */
  ghost predicate CellOfParts(agg: Aggregation, parts: seq<seq<Tick>>, c: Option<Row>, clock: Time)
    requires agg.window.Window?
  {
    if parts == [] || parts[|parts| - 1] == [] then c.None?
    else
      var p := parts[|parts| - 1];
      if Reached(agg, p) || c.None? then c.None? && Closed(agg, p, clock) else RowOfPart(agg, p, c.value)
  }

  lemma {:induction false} CountAggregate(agg: Aggregation, p: seq<Tick>)
    requires agg.kind.Count?
    ensures Aggregate(agg, p) == Acc(0.0, |p|, [])
  {
    if p != [] {
      CountAggregate(agg, p[..|p| - 1]);
    }
  }

  /** Whether a value parses does not depend on what was accumulated before. */
  lemma AddedAlike(agg: Aggregation, a: Accumulator, b: Accumulator, e: Event)
    ensures Added(agg, a, e).Some? <==> Added(agg, b, e).Some?
  {
  }

  /** The alert of a window that reached the threshold. */
  function WindowAlert(agg: Aggregation, group: string, p: seq<Tick>): Alert
    requires p != []
  {
    if agg.kind.Count? then CountAlert(|p|, agg.threshold, group, p[0].now, p[|p| - 1].now)
    else ThresholdAlertOf(agg, group, Aggregate(agg, p))
  }

  /** One counted event, when p is the open window and the live row is its row. */
  lemma CountedStep(rule: Rule, group: string, p: seq<Tick>, c: Option<Row>, now: Time, e: Event)
    requires Windowed(rule) && group != ""
    requires Counts(rule, group, Observe(now, e))
    requires p == [] ==> Live(c, now).None?
    requires p != [] ==> Live(c, now).Some? && RowOfPart(rule.aggregation.value, p, Live(c, now).value)
    ensures var agg, q, r := rule.aggregation.value, p + [Tick(now, e)], EvalCell(rule, group, c, now, e);
            && r.outcome == (if Reached(agg, q) then Raised(WindowAlert(agg, group, q)) else Quiet)
            && (Reached(agg, q) ==> r.cell.None?)
            && (!Reached(agg, q) ==> r.cell.Some? && RowOfPart(agg, q, r.cell.value))
  {
    var agg := rule.aggregation.value;
    var q := p + [Tick(now, e)];
    assert q[..|p|] == p;
    if agg.kind.Count? {
      CountAggregate(agg, q);
    } else {
      AddedAlike(agg, EmptyAcc, Aggregate(agg, p), e);
    }
  }

  /** An event that does not count, or a sweep: at most an expired row disappears, and no alert. */
  lemma UncountedStep(rule: Rule, group: string, c: Option<Row>, a: Act)
    requires Windowed(rule) && group != "" && !Counts(rule, group, a)
    ensures var r := ActCell(rule, group, c, a); !r.outcome.Raised? && (r.cell == c || r.cell == Live(c, a.now))
  {
    if a.Observe? && c.Some? {
      AddedAlike(rule.aggregation.value, EmptyAcc, DecodeAcc(c.value.data), a.e);
    }
  }

  /** What the last event of a window leads to. */
  function WindowOutcome(agg: Aggregation, group: string, p: seq<Tick>): Outcome
    requires p != []
  {
    if Reached(agg, p) then Raised(WindowAlert(agg, group, p)) else Quiet
  }

  /** One counted event keeps the row in step with the partition. */
  lemma CountedParts(rule: Rule, group: string, parts: seq<seq<Tick>>, c: Option<Row>, now: Time, e: Event)
    requires Windowed(rule) && group != ""
    requires Counts(rule, group, Observe(now, e))
    requires CellOfParts(rule.aggregation.value, parts, c, now)
    ensures var agg, r := rule.aggregation.value, EvalCell(rule, group, c, now, e);
            var next := Extend(agg, parts, Tick(now, e));
            && CellOfParts(agg, next, r.cell, now)
            && r.outcome == WindowOutcome(agg, group, next[|next| - 1])
  {
    CountedStep(rule, group, OpenPart(rule.aggregation.value, parts, now), c, now, e);
  }

  /** Parts and Ticks unfolded at the last act. */
  lemma PartsOfRun(rule: Rule, group: string, h: seq<Act>)
    requires Windowed(rule) && h != []
    ensures var agg, init, a := rule.aggregation.value, h[..|h| - 1], h[|h| - 1];
            Parts(agg, Ticks(rule, group, h)) ==
              if Counts(rule, group, a) then Extend(agg, Parts(agg, Ticks(rule, group, init)), Tick(a.now, a.e))
              else Parts(agg, Ticks(rule, group, init))
  {
    var ticks, a := Ticks(rule, group, h[..|h| - 1]), h[|h| - 1];
    if Counts(rule, group, a) {
      assert (ticks + [Tick(a.now, a.e)])[..|ticks|] == ticks;
    } else {
      assert ticks + [] == ticks;
    }
  }

  /** Time passing without an act changes nothing. */
  lemma CellLater(agg: Aggregation, parts: seq<seq<Tick>>, c: Option<Row>, clock: Time, later: Time)
    requires agg.window.Window? && CellOfParts(agg, parts, c, clock) && clock <= later
    ensures CellOfParts(agg, parts, c, later)
  {
  }

  lemma CellLives(agg: Aggregation, parts: seq<seq<Tick>>, c: Option<Row>, now: Time)
    requires agg.window.Window? && CellOfParts(agg, parts, c, now)
    ensures CellOfParts(agg, parts, Live(c, now), now)
  {
  }

  lemma TumblingStart(rule: Rule, group: string, now: Time)
    requires Windowed(rule)
    ensures CellOfParts(rule.aggregation.value, Parts(rule.aggregation.value, Ticks(rule, group, [])), CellRun(rule, group, []), now)
  {
  }

  /** One act keeps row and partition in step. */
  lemma TumblingStep(rule: Rule, group: string, h: seq<Act>)
    requires Windowed(rule) && group != "" && h != []
    requires var agg, init := rule.aggregation.value, h[..|h| - 1];
             CellOfParts(agg, Parts(agg, Ticks(rule, group, init)), CellRun(rule, group, init), h[|h| - 1].now)
    ensures var agg, a := rule.aggregation.value, h[|h| - 1]; var parts := Parts(agg, Ticks(rule, group, h));
            && CellOfParts(agg, parts, CellRun(rule, group, h), a.now)
            && (Counts(rule, group, a) ==> parts != [] && parts[|parts| - 1] != []
                                           && LastOutcome(rule, group, h) == WindowOutcome(agg, group, parts[|parts| - 1]))
            && (!Counts(rule, group, a) ==> !LastOutcome(rule, group, h).Raised?)
  {
    hide EvalCell, Reached, Parts, Ticks, CellOfParts, WindowOutcome, OpenPart, Extend, CheckConditions;
    var agg := rule.aggregation.value;
    var init, a := h[..|h| - 1], h[|h| - 1];
    var c, parts := CellRun(rule, group, init), Parts(agg, Ticks(rule, group, init));
    PartsOfRun(rule, group, h);
    if Counts(rule, group, a) {
      CountedParts(rule, group, parts, c, a.now, a.e);
    } else {
      UncountedStep(rule, group, c, a);
      CellLives(agg, parts, c, a.now);
    }
  }

  lemma {:induction false} TumblingRun(rule: Rule, group: string, h: seq<Act>)
    requires Windowed(rule) && group != "" && Monotone(h)
    ensures var agg := rule.aggregation.value;
            forall now :: (h != [] ==> h[|h| - 1].now <= now) ==>
              CellOfParts(agg, Parts(agg, Ticks(rule, group, h)), CellRun(rule, group, h), now)
    ensures var agg := rule.aggregation.value; var parts := Parts(agg, Ticks(rule, group, h));
            h != [] && Counts(rule, group, h[|h| - 1]) ==>
              parts != [] && parts[|parts| - 1] != [] && LastOutcome(rule, group, h) == WindowOutcome(agg, group, parts[|parts| - 1])
    ensures h != [] && !Counts(rule, group, h[|h| - 1]) ==> !LastOutcome(rule, group, h).Raised?
  {
    hide LastOutcome, CellRun, CellOfParts, Counts, Parts, Ticks, WindowOutcome;
    var agg := rule.aggregation.value;
    if h == [] {
      forall now ensures CellOfParts(agg, Parts(agg, Ticks(rule, group, h)), CellRun(rule, group, h), now) {
        TumblingStart(rule, group, now);
      }
    } else {
      TumblingRun(rule, group, h[..|h| - 1]);
      TumblingStep(rule, group, h);
      forall now | h[|h| - 1].now <= now
        ensures CellOfParts(agg, Parts(agg, Ticks(rule, group, h)), CellRun(rule, group, h), now)
      {
        CellLater(agg, Parts(agg, Ticks(rule, group, h)), CellRun(rule, group, h), h[|h| - 1].now, now);
      }
    }
  }

  /** For every run: the stored row is the row of the tumbling partition of the counted events, and
      an act raises an alert iff it is a counted event that brings its window to the threshold; the
      alert then reports that window. */
  lemma TumblingExactness(rule: Rule, group: string, h: seq<Act>, parts: seq<seq<Tick>>)
    requires Windowed(rule) && group != "" && Monotone(h) && h != []
    requires Partition(rule.aggregation.value, parts, Ticks(rule, group, h))
    ensures CellOfParts(rule.aggregation.value, parts, CellRun(rule, group, h), h[|h| - 1].now)
    ensures Counts(rule, group, h[|h| - 1]) ==>
              parts != [] && LastOutcome(rule, group, h) == WindowOutcome(rule.aggregation.value, group, parts[|parts| - 1])
    ensures !Counts(rule, group, h[|h| - 1]) ==> !LastOutcome(rule, group, h).Raised?
  {
    var agg := rule.aggregation.value;
    var ticks := Ticks(rule, group, h);
    PartsPartition(agg, ticks);
    PartitionUnique(agg, parts, Parts(agg, ticks), ticks);
    TumblingRun(rule, group, h);
  }
}
