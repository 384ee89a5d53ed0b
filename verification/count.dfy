/** What count rules detect: conservation of events, and how many events inside one window length
    force an alert. */
module CountRules {
  import opened Clock
  import opened Wrappers
  import opened Rules
  import opened State
  import opened Correlation
  import opened Runs
  import opened Sequences
  import opened Tumbling
  import opened Configurations

  /** A count rule with an accepted configuration. */
  predicate IsCount(rule: Rule): (r: bool)
    ensures r <==> Windowed(rule) && rule.aggregation.value.kind.Count?
  {
    rule.aggregation.Some? && rule.aggregation.value.kind.Count? && Accepted(rule.aggregation.value)
  }

  /** A window of a count rule fires exactly when it holds `threshold` events. */
  lemma CountReached(agg: Aggregation, p: seq<Tick>)
    requires agg.kind.Count? && agg.window.Window? && agg.threshold > 0 && IsPart(agg, p)
    ensures |p| <= agg.threshold
    ensures Reached(agg, p) <==> |p| == agg.threshold
  {
    CountAggregate(agg, p);
    if |p| > 1 {
      CountAggregate(agg, p[..|p| - 1]);
      assert !Reached(agg, p[..|p| - 1]);
    }
  }

  // ---------------------------------------------------------------- conservation

  function Alerts(rule: Rule, group: string, h: seq<Act>): nat {
    if h == [] then 0
    else Alerts(rule, group, h[..|h| - 1]) + (if LastOutcome(rule, group, h).Raised? then 1 else 0)
  }

  /** The events of windows that ran out below the threshold. */
  function Lost(agg: Aggregation, parts: seq<seq<Tick>>): nat {
    if parts == [] then 0
    else
      var p := parts[|parts| - 1];
      Lost(agg, parts[..|parts| - 1]) + (if Reached(agg, p) then 0 else |p|)
  }

  /** The windows that reached the threshold. */
  function Fired(agg: Aggregation, parts: seq<seq<Tick>>): nat {
    if parts == [] then 0
    else Fired(agg, parts[..|parts| - 1]) + (if Reached(agg, parts[|parts| - 1]) then 1 else 0)
  }

  function Pending(c: Option<Row>): int {
    if c.Some? then c.value.counter else 0
  }

  /** Events still in the row are not lost yet. */
  function Expiries(agg: Aggregation, parts: seq<seq<Tick>>, c: Option<Row>): nat {
    if c.Some? && parts != [] then Lost(agg, parts[..|parts| - 1]) else Lost(agg, parts)
  }

  lemma LostSnoc(agg: Aggregation, parts: seq<seq<Tick>>, p: seq<Tick>)
    ensures Fired(agg, parts + [p]) == Fired(agg, parts) + (if Reached(agg, p) then 1 else 0)
    ensures Lost(agg, parts + [p]) == Lost(agg, parts) + (if Reached(agg, p) then 0 else |p|)
  {
    assert (parts + [p])[..|parts|] == parts;
  }

  /** One more event is lost so far, or completes a window of `threshold` events. */
  lemma OneMoreEvent(agg: Aggregation, parts: seq<seq<Tick>>, ticks: seq<Tick>, x: Tick)
    requires agg.kind.Count? && agg.window.Window? && agg.threshold > 0 && Partition(agg, parts, ticks)
    ensures var next := Extend(agg, parts, x);
            var full := Reached(agg, next[|next| - 1]);
            && Lost(agg, next) + (if full then agg.threshold else 0) == Lost(agg, parts) + 1
            && Fired(agg, next) == Fired(agg, parts) + (if full then 1 else 0)
  {
    hide Reached, Lost, Fired;
    var p := OpenPart(agg, parts, x.now);
    PartitionGrows(agg, parts, ticks, x);
    CountReached(agg, p + [x]);
    if p != [] {
      LostSnoc(agg, parts[..|parts| - 1], p);
      assert parts == parts[..|parts| - 1] + [p];
      LostSnoc(agg, parts[..|parts| - 1], p + [x]);
    } else {
      LostSnoc(agg, parts, [x]);
    }
  }

  lemma Distribute(t: int, fired: int, lost: int, fired': int, lost': int, n: int)
    requires n == fired * t + lost
    requires (fired' == fired && lost' == lost + 1) || (fired' == fired + 1 && lost' + t == lost + 1)
    ensures n + 1 == fired' * t + lost'
  {
    assert (fired + 1) * t == fired * t + t;
  }

  lemma {:induction false} EventsAccounted(agg: Aggregation, ticks: seq<Tick>)
    requires agg.kind.Count? && agg.window.Window? && agg.threshold > 0
    ensures |ticks| == Fired(agg, Parts(agg, ticks)) * agg.threshold + Lost(agg, Parts(agg, ticks))
  {
    if ticks != [] {
      var init, x := ticks[..|ticks| - 1], ticks[|ticks| - 1];
      var parts := Parts(agg, init);
      EventsAccounted(agg, init);
      PartsPartition(agg, init);
      OneMoreEvent(agg, parts, init, x);
      Distribute(agg.threshold, Fired(agg, parts), Lost(agg, parts),
                 Fired(agg, Parts(agg, ticks)), Lost(agg, Parts(agg, ticks)), |init|);
    }
  }

  /** The last act raises an alert iff it counts and brings its window to the threshold. */
  lemma LastAlert(rule: Rule, group: string, h: seq<Act>)
    requires IsCount(rule) && group != "" && Monotone(h) && h != []
    ensures var agg, init, a := rule.aggregation.value, h[..|h| - 1], h[|h| - 1];
            LastOutcome(rule, group, h).Raised? <==>
              Counts(rule, group, a) &&
              Reached(agg, OpenPart(agg, Parts(agg, Ticks(rule, group, init)), a.now) + [Tick(a.now, a.e)])
  {
    hide LastOutcome;
    PartsOfRun(rule, group, h);
    TumblingRun(rule, group, h);
  }

  lemma {:induction false} AlertsAreFired(rule: Rule, group: string, h: seq<Act>)
    requires IsCount(rule) && group != "" && Monotone(h)
    ensures Alerts(rule, group, h) == Fired(rule.aggregation.value, Parts(rule.aggregation.value, Ticks(rule, group, h)))
  {
    if h != [] {
      var agg := rule.aggregation.value;
      var init, a := h[..|h| - 1], h[|h| - 1];
      var ticks := Ticks(rule, group, init);
      AlertsAreFired(rule, group, init);
      PartsOfRun(rule, group, h);
      LastAlert(rule, group, h);
      if Counts(rule, group, a) {
        PartsPartition(agg, ticks);
        OneMoreEvent(agg, Parts(agg, ticks), ticks, Tick(a.now, a.e));
      }
    }
  }

  /** Conservation: every counted event is one of the `threshold` witnesses of exactly one alert, was
      lost when its window ran out, or is counted in the stored row. */
  lemma CountConservation(rule: Rule, group: string, h: seq<Act>, parts: seq<seq<Tick>>)
    requires IsCount(rule) && group != "" && Monotone(h)
    requires Partition(rule.aggregation.value, parts, Ticks(rule, group, h))
    ensures var c := CellRun(rule, group, h);
            |Ticks(rule, group, h)| ==
              Alerts(rule, group, h) * rule.aggregation.value.threshold + Expiries(rule.aggregation.value, parts, c) + Pending(c)
  {
    var agg := rule.aggregation.value;
    var ticks := Ticks(rule, group, h);
    PartsPartition(agg, ticks);
    PartitionUnique(agg, parts, Parts(agg, ticks), ticks);
    EventsAccounted(agg, ticks);
    AlertsAreFired(rule, group, h);
    if h != [] {
      TumblingExactness(rule, group, h, parts);
    }
  }

  // ---------------------------------------------------------------- witnesses

  /** An alert is witnessed by the last T counted events, and they lie inside one window. */
  lemma CountAlertWitnesses(rule: Rule, group: string, h: seq<Act>)
    requires IsCount(rule) && group != "" && Monotone(h) && h != [] && LastOutcome(rule, group, h).Raised?
    ensures var agg, ticks := rule.aggregation.value, Ticks(rule, group, h);
            && agg.threshold <= |ticks|
            && (agg.threshold >= 2 ==>
                 ticks[|ticks| - 1].now - ticks[|ticks| - agg.threshold].now <= agg.window.length)
  {
    hide LastOutcome, Reached, Ticks, Parts, Counts;
    var agg, ticks := rule.aggregation.value, Ticks(rule, group, h);
    var parts := Parts(agg, ticks);
    PartsPartition(agg, ticks);
    AlertEndsWindow(rule, group, h);
    var p := parts[|parts| - 1];
    CountReached(agg, p);
    assert ticks == Flatten(parts[..|parts| - 1]) + p;
    assert p[0] == ticks[|ticks| - |p|];
  }

  /** A window that fired is final: later events only add windows after it. */
  lemma {:induction false} FiredIsFinal(agg: Aggregation, ticks: seq<Tick>, n: nat)
    requires agg.window.Window? && n <= |ticks|
    requires var ps := Parts(agg, ticks[..n]); ps != [] && Reached(agg, ps[|ps| - 1])
    ensures var ps, qs := Parts(agg, ticks[..n]), Parts(agg, ticks);
            && |ps| <= |qs| && qs[..|ps|] == ps
            && (n < |ticks| ==> |ps| < |qs|)
    decreases |ticks|
  {
    if n < |ticks| {
      var init := ticks[..|ticks| - 1];
      assert init[..n] == ticks[..n];
      FiredIsFinal(agg, init, n);
    } else {
      assert ticks[..n] == ticks;
    }
  }

  lemma {:induction false} TicksOfPrefix(rule: Rule, group: string, h: seq<Act>, n: nat)
    requires Windowed(rule) && n <= |h|
    ensures Ticks(rule, group, h[..n]) <= Ticks(rule, group, h)
  {
    if n < |h| {
      TicksOfPrefix(rule, group, h[..|h| - 1], n);
      assert h[..|h| - 1][..n] == h[..n];
    } else {
      assert h[..n] == h;
    }
  }

  lemma FiredSize(agg: Aggregation, ticks: seq<Tick>)
    requires agg.kind.Count? && agg.window.Window? && agg.threshold > 0
    ensures var parts := Parts(agg, ticks);
            && Flatten(parts) == ticks
            && (parts != [] && Reached(agg, parts[|parts| - 1]) ==> |parts[|parts| - 1]| == agg.threshold)
  {
    var parts := Parts(agg, ticks);
    PartsPartition(agg, ticks);
    if parts != [] {
      CountReached(agg, parts[|parts| - 1]);
    }
  }

  /** Two fired windows do not overlap. */
  lemma FiredApart(agg: Aggregation, ticks: seq<Tick>, n: nat)
    requires agg.kind.Count? && agg.window.Window? && agg.threshold > 0 && n < |ticks|
    requires var ps := Parts(agg, ticks[..n]); ps != [] && Reached(agg, ps[|ps| - 1])
    requires var qs := Parts(agg, ticks); qs != [] && Reached(agg, qs[|qs| - 1])
    ensures |ticks| >= n + agg.threshold
  {
    FiredIsFinal(agg, ticks, n);
    FiredSize(agg, ticks[..n]);
    FiredSize(agg, ticks);
    FlattenGrows(Parts(agg, ticks), |Parts(agg, ticks[..n])|);
  }

  /** The last window has fired when the last act raises an alert. */
  lemma AlertEndsWindow(rule: Rule, group: string, h: seq<Act>)
    requires IsCount(rule) && group != "" && Monotone(h) && h != [] && LastOutcome(rule, group, h).Raised?
    ensures Counts(rule, group, h[|h| - 1])
    ensures var agg := rule.aggregation.value; var parts := Parts(agg, Ticks(rule, group, h));
            parts != [] && Reached(agg, parts[|parts| - 1])
  {
    hide LastOutcome;
    TumblingRun(rule, group, h);
  }

  lemma TicksGrow(rule: Rule, group: string, h: seq<Act>, n: nat)
    requires Windowed(rule) && n < |h| && Counts(rule, group, h[|h| - 1])
    ensures var early, late := Ticks(rule, group, h[..n]), Ticks(rule, group, h);
            |early| < |late| && late[..|early|] == early
  {
    var init := h[..|h| - 1];
    TicksOfPrefix(rule, group, init, n);
    assert init[..n] == h[..n];
  }

  /** Witnesses are disjoint: when a run and a shorter prefix of it both end in an alert, at least T
      counted events lie between them. */
  lemma CountAlertsDisjoint(rule: Rule, group: string, h: seq<Act>, n: nat)
    requires IsCount(rule) && group != "" && Monotone(h) && 0 < n < |h|
    requires LastOutcome(rule, group, h).Raised? && LastOutcome(rule, group, h[..n]).Raised?
    ensures |Ticks(rule, group, h)| >= |Ticks(rule, group, h[..n])| + rule.aggregation.value.threshold
  {
    hide LastOutcome, Reached, Parts, Ticks, Counts;
    AlertEndsWindow(rule, group, h[..n]);
    AlertEndsWindow(rule, group, h);
    TicksGrow(rule, group, h, n);
    FiredApart(rule.aggregation.value, Ticks(rule, group, h), |Ticks(rule, group, h[..n])|);
  }

  // ---------------------------------------------------------------- the detection bound

  /** The counted events of h at or after position `from`. */
  function CountedSince(rule: Rule, group: string, h: seq<Act>, from: nat): nat
    requires Windowed(rule)
  {
    if |h| <= from then 0
    else CountedSince(rule, group, h[..|h| - 1], from) + (if Counts(rule, group, h[|h| - 1]) then 1 else 0)
  }

  /** The window in progress was opened at or after position `from`, at or after time `start`. */
  predicate Young(agg: Aggregation, c: Option<Row>, start: Time, n: nat)
    requires agg.window.Window?
  {
    c.Some? && c.value.expiresAt >= start + agg.window.length && n <= c.value.counter + agg.threshold - 2
  }

  /** No window has been opened since: an older row holds every event seen, and at least one more. */
  predicate Old(agg: Aggregation, c: Option<Row>, n: nat) {
    n <= agg.threshold - 2 && (c.Some? ==> n < c.value.counter)
  }

  /** While no alert is raised from position `from` on, the row accounts for all but
      threshold - 2 of the events seen since. */
  lemma {:induction false} SilenceBound(rule: Rule, group: string, h: seq<Act>, from: nat)
    requires IsCount(rule) && group != "" && Monotone(h) && rule.aggregation.value.threshold >= 2
    requires from < |h| && h[|h| - 1].now - h[from].now <= rule.aggregation.value.window.length
    requires forall j :: from <= j < |h| ==> !FiresAt(rule, group, h, j)
    ensures var agg, c, n := rule.aggregation.value, CellRun(rule, group, h), CountedSince(rule, group, h, from);
            Young(agg, c, h[from].now, n) || Old(agg, c, n)
  {
    var agg := rule.aggregation.value;
    var init, a := h[..|h| - 1], h[|h| - 1];
    var c := CellRun(rule, group, init);
    assert h[..|h|] == h;
    assert !FiresAt(rule, group, h, |h| - 1);
    RunKeepsInvariant(rule, group, init);
    RunKeepsInvariant(rule, group, h);
    if |init| > from {
      forall j | from <= j < |init| ensures !FiresAt(rule, group, init, j) {
        assert init[..j + 1] == h[..j + 1];
        assert !FiresAt(rule, group, h, j);
      }
      SilenceBound(rule, group, init, from);
    }
    if !Counts(rule, group, a) {
      UncountedStep(rule, group, c, a);
    }
  }

  /** Any stretch of a run that is no longer than the window and holds at least 2T - 2 counted
      events contains an alert, whatever happened before it. */
  lemma CountDetectionBound(rule: Rule, group: string, h: seq<Act>, from: nat, to: nat)
    requires IsCount(rule) && group != "" && Monotone(h) && rule.aggregation.value.threshold >= 2
    requires from < to <= |h| && h[to - 1].now - h[from].now <= rule.aggregation.value.window.length
    requires CountedSince(rule, group, h[..to], from) >= 2 * rule.aggregation.value.threshold - 2
    ensures exists j :: from <= j < to && FiresAt(rule, group, h, j)
  {
    if forall j :: from <= j < to ==> !FiresAt(rule, group, h, j) {
      var k := h[..to];
      forall j | from <= j < |k| ensures !FiresAt(rule, group, k, j) {
        assert k[..j + 1] == h[..j + 1];
        assert !FiresAt(rule, group, h, j);
      }
      SilenceBound(rule, group, k, from);
      RunKeepsInvariant(rule, group, k);
      assert false;
    }
  }

  // ---------------------------------------------------------------- the bound is tight

  function Repeat(a: Act, n: nat): seq<Act> {
    seq(n, _ => a)
  }

  /** A counted event that finds a live row short of the threshold by two adds one to it. */
  lemma Join(rule: Rule, group: string, h: seq<Act>, now: Time, e: Event, from: nat)
    requires IsCount(rule) && group != "" && Counts(rule, group, Observe(now, e)) && from <= |h|
    requires CellRun(rule, group, h).Some? && !Expired(CellRun(rule, group, h).value, now)
    requires CellRun(rule, group, h).value.counter + 1 < rule.aggregation.value.threshold
    ensures CellRun(rule, group, h + [Observe(now, e)]) ==
              Some(CellRun(rule, group, h).value.(counter := CellRun(rule, group, h).value.counter + 1, lastSeen := now))
    ensures CountedSince(rule, group, h + [Observe(now, e)], from) == CountedSince(rule, group, h, from) + 1
    ensures Alerts(rule, group, h + [Observe(now, e)]) == Alerts(rule, group, h)
  {
    assert (h + [Observe(now, e)])[..|h|] == h;
  }

  /** A counted event that finds no live row opens a window. */
  lemma Open(rule: Rule, group: string, h: seq<Act>, now: Time, e: Event, from: nat)
    requires IsCount(rule) && group != "" && Counts(rule, group, Observe(now, e)) && rule.aggregation.value.threshold >= 2
    requires Live(CellRun(rule, group, h), now).None?
    ensures var d := CellRun(rule, group, h + [Observe(now, e)]);
            d.Some? && d.value.counter == 1 && d.value.expiresAt == now + rule.aggregation.value.window.length
    ensures CountedSince(rule, group, h + [Observe(now, e)], from) == CountedSince(rule, group, h, from) + (if from <= |h| then 1 else 0)
    ensures Alerts(rule, group, h + [Observe(now, e)]) == Alerts(rule, group, h)
  {
    var g := h + [Observe(now, e)];
    assert g[..|h|] == h;
    assert g[|g| - 1] == Observe(now, e);
  }

  /** k more counted events at one time leave the row k higher, as long as it stays below threshold. */
  lemma {:induction false} Climb(rule: Rule, group: string, h: seq<Act>, now: Time, e: Event, k: nat, from: nat)
    requires IsCount(rule) && group != "" && Counts(rule, group, Observe(now, e)) && from <= |h|
    requires CellRun(rule, group, h).Some? && !Expired(CellRun(rule, group, h).value, now)
    requires CellRun(rule, group, h).value.counter + k < rule.aggregation.value.threshold
    ensures var c, d := CellRun(rule, group, h), CellRun(rule, group, h + Repeat(Observe(now, e), k));
            d.Some? && d.value.counter == c.value.counter + k && d.value.expiresAt == c.value.expiresAt
    ensures CountedSince(rule, group, h + Repeat(Observe(now, e), k), from) == CountedSince(rule, group, h, from) + k
    ensures Alerts(rule, group, h + Repeat(Observe(now, e), k)) == Alerts(rule, group, h)
  {
    hide EvalCell;
    var g := h + Repeat(Observe(now, e), k);
    if k == 0 {
      assert g == h;
    } else {
      var g' := h + Repeat(Observe(now, e), k - 1);
      Climb(rule, group, h, now, e, k - 1, from);
      Join(rule, group, g', now, e, from);
      assert g == g' + [Observe(now, e)];
    }
  }

  /** The run behind the tight bound: one event, T - 2 as its window ends, T - 1 right after. */
  function Straddle(agg: Aggregation, e: Event): seq<Act>
    requires agg.window.Window? && agg.threshold >= 2
  {
    [Observe(0, e)] + Repeat(Observe(agg.window.length, e), agg.threshold - 2)
      + [Observe(agg.window.length + 1, e)] + Repeat(Observe(agg.window.length + 1, e), agg.threshold - 2)
  }

  lemma StraddleMonotone(agg: Aggregation, e: Event)
    requires agg.window.Window? && agg.threshold >= 2 && agg.window.length >= 1
    ensures Monotone(Straddle(agg, e)) && |Straddle(agg, e)| == 2 * agg.threshold - 2
    ensures agg.window.length <= Straddle(agg, e)[1].now <= agg.window.length + 1
    ensures Straddle(agg, e)[|Straddle(agg, e)| - 1].now == agg.window.length + 1
  {
    var h := Straddle(agg, e);
    assert forall i :: 0 <= i < |h| ==>
      h[i].now == if i == 0 then 0 else if i < agg.threshold - 1 then agg.window.length else agg.window.length + 1;
  }

  /** The first T - 1 events of the run: they fill their window to one below the threshold. */
  lemma StraddleFirst(rule: Rule, group: string, e: Event, a: seq<Act>)
    requires IsCount(rule) && group != "" && Counts(rule, group, Observe(0, e))
    requires rule.aggregation.value.threshold >= 2 && rule.aggregation.value.window.length >= 1
    requires a == [Observe(0, e)] + Repeat(Observe(rule.aggregation.value.window.length, e), rule.aggregation.value.threshold - 2)
    ensures Live(CellRun(rule, group, a), rule.aggregation.value.window.length + 1).None?
    ensures CountedSince(rule, group, a, 1) == rule.aggregation.value.threshold - 2 && Alerts(rule, group, a) == 0
  {
    hide EvalCell;
    var first := [] + [Observe(0, e)];
    Open(rule, group, [], 0, e, 1);
    assert a == first + Repeat(Observe(rule.aggregation.value.window.length, e), rule.aggregation.value.threshold - 2);
    Climb(rule, group, first, rule.aggregation.value.window.length, e, rule.aggregation.value.threshold - 2, 1);
  }

  /** The last T - 1 events: they open the next window and stay one below the threshold as well. */
  lemma StraddleSecond(rule: Rule, group: string, e: Event, a: seq<Act>, b: seq<Act>)
    requires IsCount(rule) && group != "" && Counts(rule, group, Observe(0, e)) && |a| >= 1
    requires rule.aggregation.value.threshold >= 2 && rule.aggregation.value.window.length >= 1
    requires Live(CellRun(rule, group, a), rule.aggregation.value.window.length + 1).None?
    requires b == a + [Observe(rule.aggregation.value.window.length + 1, e)]
    ensures CountedSince(rule, group, b + Repeat(b[|a|], rule.aggregation.value.threshold - 2), 1)
              == CountedSince(rule, group, a, 1) + rule.aggregation.value.threshold - 1
    ensures Alerts(rule, group, b + Repeat(b[|a|], rule.aggregation.value.threshold - 2)) == Alerts(rule, group, a)
  {
    hide EvalCell;
    Open(rule, group, a, b[|a|].now, e, 1);
    Climb(rule, group, b, b[|a|].now, e, rule.aggregation.value.threshold - 2, 1);
  }

  /** The bound is tight: this run has 2T - 3 counted events within one time unit and
      raises no alert at all. */
  lemma CountBoundTight(rule: Rule, group: string, e: Event)
    requires IsCount(rule) && group != "" && Counts(rule, group, Observe(0, e))
    requires rule.aggregation.value.threshold >= 2 && rule.aggregation.value.window.length >= 1
    ensures var agg := rule.aggregation.value; var h := Straddle(agg, e);
            && Monotone(h) && |h| > 1
            && h[|h| - 1].now - h[1].now <= 1 <= agg.window.length
            && CountedSince(rule, group, h, 1) == 2 * agg.threshold - 3
            && Alerts(rule, group, h) == 0
  {
    hide EvalCell;
    var agg := rule.aggregation.value;
    var w, n := agg.window.length, agg.threshold - 2;
    var a := [Observe(0, e)] + Repeat(Observe(w, e), n);
    StraddleMonotone(agg, e);
    StraddleFirst(rule, group, e, a);
    StraddleSecond(rule, group, e, a, a + [Observe(w + 1, e)]);
    assert a + [Observe(w + 1, e)] + Repeat(Observe(w + 1, e), n) == Straddle(agg, e);
  }

  // ---------------------------------------------------------------- the exact guarantee

  /** Every stretch of every run that is no longer than the window and holds at least n counted events
      contains an alert. */
  ghost predicate Guarantees(rule: Rule, group: string, n: nat)
    requires IsCount(rule)
  {
    forall h: seq<Act>, from: nat, to: nat ::
      Stretch(rule, group, h, from, to, n) ==> exists j :: from <= j < to && FiresAt(rule, group, h, j)
  }

  ghost predicate Stretch(rule: Rule, group: string, h: seq<Act>, from: nat, to: nat, n: nat)
    requires IsCount(rule)
  {
    && Monotone(h) && from < to <= |h|
    && h[to - 1].now - h[from].now <= rule.aggregation.value.window.length
    && CountedSince(rule, group, h[..to], from) >= n
  }

  /** T when windows cannot straddle (one event suffices, or a window of length 0), else 2T - 2. */
  function Guaranteed(agg: Aggregation): int
    requires agg.window.Window?
  {
    if agg.threshold == 1 || agg.window.length == 0 then agg.threshold else 2 * agg.threshold - 2
  }

  /** Without straddling, the row holds every event seen while no alert is raised. */
  lemma {:induction false} InstantSilence(rule: Rule, group: string, h: seq<Act>, from: nat)
    requires IsCount(rule) && group != "" && Monotone(h)
    requires rule.aggregation.value.threshold == 1 || rule.aggregation.value.window.length == 0
    requires from < |h| && h[|h| - 1].now - h[from].now <= rule.aggregation.value.window.length
    requires forall j :: from <= j < |h| ==> !FiresAt(rule, group, h, j)
    ensures var c, n := CellRun(rule, group, h), CountedSince(rule, group, h, from);
            n == 0 || (c.Some? && c.value.expiresAt >= h[from].now && n <= c.value.counter)
  {
    var init, a := h[..|h| - 1], h[|h| - 1];
    var c := CellRun(rule, group, init);
    assert h[..|h|] == h;
    assert !FiresAt(rule, group, h, |h| - 1);
    RunKeepsInvariant(rule, group, init);
    RunKeepsInvariant(rule, group, h);
    if |init| > from {
      forall j | from <= j < |init| ensures !FiresAt(rule, group, init, j) {
        assert init[..j + 1] == h[..j + 1];
        assert !FiresAt(rule, group, h, j);
      }
      InstantSilence(rule, group, init, from);
    }
    if !Counts(rule, group, a) {
      UncountedStep(rule, group, c, a);
    }
  }

  lemma InstantDetection(rule: Rule, group: string, h: seq<Act>, from: nat, to: nat)
    requires IsCount(rule) && group != ""
    requires rule.aggregation.value.threshold == 1 || rule.aggregation.value.window.length == 0
    requires Stretch(rule, group, h, from, to, rule.aggregation.value.threshold)
    ensures exists j :: from <= j < to && FiresAt(rule, group, h, j)
  {
    if forall j :: from <= j < to ==> !FiresAt(rule, group, h, j) {
      var k := h[..to];
      forall j | from <= j < |k| ensures !FiresAt(rule, group, k, j) {
        assert k[..j + 1] == h[..j + 1];
        assert !FiresAt(rule, group, h, j);
      }
      InstantSilence(rule, group, k, from);
      RunKeepsInvariant(rule, group, k);
      assert false;
    }
  }

  lemma EnoughIsGuaranteed(rule: Rule, group: string, n: nat)
    requires IsCount(rule) && group != "" && n >= Guaranteed(rule.aggregation.value)
    ensures Guarantees(rule, group, n)
  {
    var agg := rule.aggregation.value;
    forall h: seq<Act>, from: nat, to: nat | Stretch(rule, group, h, from, to, n)
      ensures exists j :: from <= j < to && FiresAt(rule, group, h, j)
    {
      if agg.threshold == 1 || agg.window.length == 0 {
        InstantDetection(rule, group, h, from, to);
      } else {
        CountDetectionBound(rule, group, h, from, to);
      }
    }
  }

  lemma {:induction false} NoAlertNoFire(rule: Rule, group: string, h: seq<Act>, j: nat)
    requires Alerts(rule, group, h) == 0 && j < |h|
    ensures !FiresAt(rule, group, h, j)
  {
    hide LastOutcome;
    var init := h[..|h| - 1];
    if j < |init| {
      NoAlertNoFire(rule, group, init, j);
      assert init[..j + 1] == h[..j + 1];
    } else {
      assert h[..j + 1] == h;
    }
  }

  /** A silent stretch shows that its number of events is not enough. */
  lemma SilentStretch(rule: Rule, group: string, h: seq<Act>, from: nat, n: nat)
    requires IsCount(rule) && Stretch(rule, group, h, from, |h|, n) && Alerts(rule, group, h) == 0
    ensures !Guarantees(rule, group, n)
  {
    hide FiresAt, Alerts;
    forall j: nat | from <= j < |h| ensures !FiresAt(rule, group, h, j) {
      NoAlertNoFire(rule, group, h, j);
    }
    assert !exists j :: from <= j < |h| && FiresAt(rule, group, h, j);
  }

  /** T - 1 events at one time stay silent, and so does a run without any. */
  lemma InstantTight(rule: Rule, group: string, e: Event, n: nat)
    requires IsCount(rule) && group != "" && Counts(rule, group, Observe(0, e)) && rule.aggregation.value.window.length >= 0
    requires n < rule.aggregation.value.threshold
    ensures !Guarantees(rule, group, n)
  {
    var t := rule.aggregation.value.threshold;
    if t == 1 {
      var h := [] + [Sweep(0)];
      assert h[..0] == [] && h[..|h|] == h;
      SilentStretch(rule, group, h, 0, n);
    } else {
      InstantRun(rule, group, e, n);
    }
  }

  lemma NothingYet(rule: Rule, group: string)
    requires IsCount(rule)
    ensures CellRun(rule, group, []).None? && Alerts(rule, group, []) == 0 && CountedSince(rule, group, [], 0) == 0
  {
  }

  lemma InstantRun(rule: Rule, group: string, e: Event, n: nat)
    requires IsCount(rule) && group != "" && Counts(rule, group, Observe(0, e)) && rule.aggregation.value.window.length >= 0
    requires n < rule.aggregation.value.threshold && rule.aggregation.value.threshold >= 2
    ensures !Guarantees(rule, group, n)
  {
    hide Guarantees, CellRun, Alerts, CountedSince, Counts;
    NothingYet(rule, group);
    var t := rule.aggregation.value.threshold;
    var first := [] + [Observe(0, e)];
    var h := first + Repeat(Observe(0, e), t - 2);
    Open(rule, group, [], 0, e, 0);
    Climb(rule, group, first, 0, e, t - 2, 0);
    assert forall i :: 0 <= i < |h| ==> h[i] == Observe(0, e);
    assert h[..|h|] == h;
    SilentStretch(rule, group, h, 0, n);
  }

  /** Exactly how many counted events inside one window length force an alert, whatever came before. */
  lemma CountGuaranteeExact(rule: Rule, group: string, e: Event, n: nat)
    requires IsCount(rule) && group != "" && Counts(rule, group, Observe(0, e))
    requires rule.aggregation.value.window.length >= 0
    ensures Guarantees(rule, group, n) <==> n >= Guaranteed(rule.aggregation.value)
  {
    hide Guarantees, LastOutcome;
    var agg := rule.aggregation.value;
    if n >= Guaranteed(agg) {
      EnoughIsGuaranteed(rule, group, n);
    } else if n < agg.threshold {
      InstantTight(rule, group, e, n);
    } else {
      var h := Straddle(agg, e);
      CountBoundTight(rule, group, e);
      assert h[..|h|] == h;
      SilentStretch(rule, group, h, 1, n);
    }
  }
}
