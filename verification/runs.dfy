/** Whole runs of the engine: events and background sweeps in any order, read one row at a time. */
module Runs {
  import opened Clock
  import opened Wrappers
  import opened Rules
  import opened State
  import opened Correlation
  import opened RulesEngine

  datatype Act = Observe(now: Time, e: Event) | Sweep(now: Time)

  ghost predicate Monotone(h: seq<Act>) {
    MonotoneBy((a: Act) => a.now, h)
  }

  /** The time of the last act; a run starts at any time up to its first act. */
  function LastTime(h: seq<Act>, now: Time): Time {
    if h == [] then now else h[|h| - 1].now
  }

  /** What one act does to the row of one (rule, group). */
  function ActCell(rule: Rule, group: string, c: Option<Row>, a: Act): CellResult {
    match a
    case Sweep(now) => CellResult(Live(c, now), Quiet)
    case Observe(now, e) =>
      if Group(rule, e) == group then EvalCell(rule, group, c, now, e) else CellResult(c, Quiet)
  }

  /** The row of (rule, group) after a run from an empty table. */
  function CellRun(rule: Rule, group: string, h: seq<Act>): Option<Row> {
    if h == [] then None
    else ActCell(rule, group, CellRun(rule, group, h[..|h| - 1]), h[|h| - 1]).cell
  }

  /** The outcome of the last act of a run, for (rule, group). */
  function LastOutcome(rule: Rule, group: string, h: seq<Act>): Outcome
    requires h != []
  {
    ActCell(rule, group, CellRun(rule, group, h[..|h| - 1]), h[|h| - 1]).outcome
  }

  /** Does (rule, group) raise an alert at act j of the run? */
  predicate FiresAt(rule: Rule, group: string, h: seq<Act>, j: nat)
    requires j < |h|
  {
    LastOutcome(rule, group, h[..j + 1]).Raised?
  }

  /** The outcomes of a run that are not Quiet, in order. */
  function Reports(rule: Rule, group: string, h: seq<Act>): seq<Outcome> {
    if h == [] then []
    else
      var o := LastOutcome(rule, group, h);
      Reports(rule, group, h[..|h| - 1]) + (if o.Quiet? then [] else [o])
  }

  // ---------------------------------------------------------------- invariants over runs

  /** Every row a run can store satisfies the row invariant, and no act of any run panics or
      raises a malformed alert. */
  lemma {:induction false} RunKeepsInvariant(rule: Rule, group: string, h: seq<Act>)
    requires Monotone(h)
    ensures h != [] ==> CellOk(rule, CellRun(rule, group, h), h[|h| - 1].now)
    ensures h != [] ==> OutcomeOk(rule, LastOutcome(rule, group, h), h[|h| - 1].now)
  {
    hide EvalCell;
    if h != [] {
      var init, a := h[..|h| - 1], h[|h| - 1];
      RunKeepsInvariant(rule, group, init);
      var c := CellRun(rule, group, init);
      if a.Observe? {
        EvalKeepsInvariant(rule, group, c, LastTime(init, a.now), a.now, a.e);
      }
    }
  }

  // ---------------------------------------------------------------- isolation

  /** tables are the successive tables of a run of an engine holding `rules`: events change them as
      Engine.Evaluate does, sweeps as StateStorage.DeleteExpiredStates does. */
  ghost predicate IsRun(rules: map<string, Rule>, h: seq<Act>, tables: seq<Table>) {
    && |tables| == |h| + 1
    && tables[0] == map[]
    && forall i :: 0 <= i < |h| ==> Steps(rules, tables[i], h[i], tables[i + 1])
  }

  ghost predicate Steps(rules: map<string, Rule>, t: Table, a: Act, t': Table) {
    match a
    case Observe(now, e) => Midway(rules, {}, t, t', now, e)
    case Sweep(now) => forall id :: Cell(t', id) == Live(Cell(t, id), now)
  }

  /** Each row of the shared table evolves exactly as if its rule ran alone, and each outcome of the
      rule is the one of that solitary run: other rules and the order of the map are irrelevant. */
  lemma {:induction false} Isolation(rules: map<string, Rule>, h: seq<Act>, tables: seq<Table>, rule: Rule, group: string)
    requires IsRun(rules, h, tables)
    requires rule.id in rules && rules[rule.id] == rule
    ensures Cell(tables[|h|], RowId(rule.id, group)) == CellRun(rule, group, h)
    ensures h != [] && h[|h| - 1].Observe? && Group(rule, h[|h| - 1].e) == group ==>
              RuleResult(rule, tables[|h| - 1], h[|h| - 1].now, h[|h| - 1].e).outcome == LastOutcome(rule, group, h)
  {
    if h != [] {
      var n := |h| - 1;
      assert IsRun(rules, h[..n], tables[..n + 1]);
      Isolation(rules, h[..n], tables[..n + 1], rule, group);
      assert tables[..n + 1][n] == tables[n];
      assert Steps(rules, tables[n], h[n], tables[n + 1]);
      assert Cell(tables[n], RowId(rule.id, group)) == CellRun(rule, group, h[..n]);
    }
  }

  /** The acts of a run that concern one group under one rule: its events, and the sweeps. */
  function Concerning(rule: Rule, group: string, h: seq<Act>): seq<Act> {
    if h == [] then []
    else
      var a := h[|h| - 1];
      Concerning(rule, group, h[..|h| - 1]) + (if a.Observe? && Group(rule, a.e) != group then [] else [a])
  }

  /** Events of other groups leave no trace: the row and the reports are those of the restricted run. */
  lemma {:induction false} GroupIsolation(rule: Rule, group: string, h: seq<Act>)
    ensures CellRun(rule, group, h) == CellRun(rule, group, Concerning(rule, group, h))
    ensures Reports(rule, group, h) == Reports(rule, group, Concerning(rule, group, h))
  {
    hide EvalCell;
    if h != [] {
      var init, a := h[..|h| - 1], h[|h| - 1];
      GroupIsolation(rule, group, init);
      var kept := Concerning(rule, group, init);
      if a.Observe? && Group(rule, a.e) != group {
        assert kept + [] == kept;
      } else {
        assert (kept + [a])[..|kept|] == kept;
      }
    }
  }

  // ---------------------------------------------------------------- sweep transparency

  function Unswept(h: seq<Act>): seq<Act> {
    if h == [] then []
    else Unswept(h[..|h| - 1]) + (if h[|h| - 1].Sweep? then [] else [h[|h| - 1]])
  }

  /** Equal rows, but for the first_seen of rows written through SaveState. */
  predicate SameRow(rule: Rule, r: Row, r': Row) {
    if rule.aggregation.Some? && rule.aggregation.value.kind.Count? then r == r'
    else r.(firstSeen := 0) == r'.(firstSeen := 0)
  }

  /** A swept and an unswept run hold the same row, or the swept one has lost an expired row. */
  predicate Agree(rule: Rule, swept: Option<Row>, unswept: Option<Row>, clock: Time) {
    match (swept, unswept)
    case (Some(r), Some(r')) => SameRow(rule, r, r')
    case (None, Some(r')) => Expired(r', clock)
    case (Some(_), None) => false
    case (None, None) => true
  }

  /** What is live in one run is live in the other. */
  lemma LiveAgrees(rule: Rule, swept: Option<Row>, unswept: Option<Row>, clock: Time, now: Time)
    requires Agree(rule, swept, unswept, clock) && clock <= now
    ensures Agree(rule, Live(swept, now), Live(unswept, now), now)
    ensures Live(swept, now).Some? <==> Live(unswept, now).Some?
    ensures Agree(rule, swept, unswept, now)
  {
  }

  lemma CountAgrees(rule: Rule, group: string, swept: Option<Row>, unswept: Option<Row>, clock: Time, now: Time)
    requires rule.aggregation.Some? && rule.aggregation.value.kind.Count?
    requires Agree(rule, swept, unswept, clock) && clock <= now && (unswept.Some? ==> unswept.value.data.NoData?)
    ensures var agg := rule.aggregation.value;
            var s, u := CountCell(agg, group, swept, now), CountCell(agg, group, unswept, now);
            s.outcome == u.outcome && Agree(rule, s.cell, u.cell, now)
  {
  }

  lemma ThresholdAgrees(rule: Rule, group: string, swept: Option<Row>, unswept: Option<Row>, clock: Time, now: Time, e: Event)
    requires rule.aggregation.Some? && rule.aggregation.value.kind.Threshold?
    requires Agree(rule, swept, unswept, clock) && clock <= now
    ensures var agg := rule.aggregation.value;
            var s, u := ThresholdCell(agg, group, swept, now, e), ThresholdCell(agg, group, unswept, now, e);
            s.outcome == u.outcome && Agree(rule, s.cell, u.cell, now)
  {
    hide Live, Added, CurrentValue, EffectiveThreshold;
    LiveAgrees(rule, swept, unswept, clock, now);
  }

  lemma SequenceStartAgrees(rule: Rule, group: string, swept: Option<Row>, unswept: Option<Row>, clock: Time, now: Time, e: Event)
    requires rule.aggregation.Some? && rule.aggregation.value.kind.Sequence?
    requires Agree(rule, swept, unswept, clock) && clock <= now
    ensures var agg := rule.aggregation.value;
            var s, u := SequenceStartCell(agg, group, swept, now, e), SequenceStartCell(agg, group, unswept, now, e);
            s.outcome == u.outcome && Agree(rule, s.cell, u.cell, now)
  {
  }

  lemma SequenceNextAgrees(rule: Rule, group: string, swept: Option<Row>, unswept: Option<Row>, clock: Time, now: Time, e: Event)
    requires rule.aggregation.Some? && rule.aggregation.value.kind.Sequence?
    requires Agree(rule, swept, unswept, clock) && clock <= now
    ensures var agg := rule.aggregation.value;
            var s, u := SequenceNextCell(agg, group, swept, now, e), SequenceNextCell(agg, group, unswept, now, e);
            s.outcome == u.outcome && Agree(rule, s.cell, u.cell, now)
  {
    hide Live, Durations, CheckConditions;
    LiveAgrees(rule, swept, unswept, clock, now);
  }

  lemma EvalAgrees(rule: Rule, group: string, swept: Option<Row>, unswept: Option<Row>, clock: Time, now: Time, e: Event)
    requires Agree(rule, swept, unswept, clock) && clock <= now
    requires unswept.Some? && rule.aggregation.Some? && rule.aggregation.value.kind.Count? ==> unswept.value.data.NoData?
    ensures var s, u := EvalCell(rule, group, swept, now, e), EvalCell(rule, group, unswept, now, e);
            s.outcome == u.outcome && Agree(rule, s.cell, u.cell, now)
  {
    hide CountCell, ThresholdCell, SequenceStartCell, SequenceNextCell, CheckConditions, Agree;
    LiveAgrees(rule, swept, unswept, clock, now);
    if rule.aggregation.Some? {
      match rule.aggregation.value.kind
      case Count => CountAgrees(rule, group, swept, unswept, clock, now);
      case Threshold => ThresholdAgrees(rule, group, swept, unswept, clock, now, e);
      case Sequence =>
        SequenceStartAgrees(rule, group, swept, unswept, clock, now, e);
        SequenceNextAgrees(rule, group, swept, unswept, clock, now, e);
      case Unsupported =>
    }
  }

  lemma {:induction false} CountRowsCarryNoData(rule: Rule, group: string, h: seq<Act>)
    requires rule.aggregation.Some? && rule.aggregation.value.kind.Count?
    ensures CellRun(rule, group, h).Some? ==> CellRun(rule, group, h).value.data.NoData?
  {
    if h != [] {
      CountRowsCarryNoData(rule, group, h[..|h| - 1]);
    }
  }

  /** Sweeping expired rows at arbitrary points changes no report, and leaves the rows equal up to
      expired ones and the first_seen that SaveState keeps. */
  lemma {:induction false} SweepTransparency(rule: Rule, group: string, h: seq<Act>)
    requires Monotone(h)
    ensures Reports(rule, group, h) == Reports(rule, group, Unswept(h))
    ensures h != [] ==> Agree(rule, CellRun(rule, group, h), CellRun(rule, group, Unswept(h)), h[|h| - 1].now)
  {
    hide EvalCell;
    if h != [] {
      var init, a := h[..|h| - 1], h[|h| - 1];
      SweepTransparency(rule, group, init);
      var kept := Unswept(init);
      var s, u := CellRun(rule, group, init), CellRun(rule, group, kept);
      if init == [] {
        assert s == None && u == None;
      }
      assert Agree(rule, s, u, LastTime(init, a.now));
      if a.Sweep? {
        assert kept + [] == kept;
      } else {
        assert (kept + [a])[..|kept|] == kept;
        if rule.aggregation.Some? && rule.aggregation.value.kind.Count? {
          CountRowsCarryNoData(rule, group, kept);
        }
        if Group(rule, a.e) == group {
          EvalAgrees(rule, group, s, u, LastTime(init, a.now), a.now, a.e);
        }
      }
    }
  }
}
