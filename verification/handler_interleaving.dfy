/** Threshold and sequence handlers running at once: the engine holds only a read lock, so the SELECT of
    one handler, its DELETE of an expired row, its save or delete and its alert are separate statements
    that others may overtake. Updates get lost and deleted rows come back; what a row or an alert says
    about the events behind it survives. One (rule, group) pair. */
module HandlerInterleaving {
  import opened Clock
  import opened Wrappers
  import opened Rules
  import opened State
  import opened Correlation
  import opened Tumbling

  /** The part one handler's event has in a row, with the time the handler read the clock. */
  datatype Use = Use(handler: nat, tick: Tick)

  /** Fresh: nothing done. Clearing: found an expired row it is about to delete. Saving, Deleting,
      Alerting: decided, with the statement still to run. Crashed: the decision panicked. */
  datatype Phase =
    | Fresh
    | Clearing
    | Saving(row: Row, uses: seq<Use>)
    | Deleting(alert: Alert, uses: seq<Use>)
    | Alerting(alert: Alert, uses: seq<Use>)
    | Crashed
    | Done

  datatype Handler = Handler(e: Event, at: Time, phase: Phase)

  datatype Report = Report(alert: Alert, uses: seq<Use>)

  /** `uses` are the events that the stored row is made of. */
  datatype World = World(row: Option<Row>, uses: seq<Use>, handlers: seq<Handler>, alerts: seq<Report>)

  datatype Op =
    | Arrive(e: Event)
    | Read(i: nat, ok: bool)
    | Clear(i: nat, ok: bool)
    | Save(i: nat, ok: bool)
    | Delete(i: nat, ok: bool)
    | Alert(i: nat)
    | Sweep

  datatype Step = Step(now: Time, op: Op)

  ghost predicate Monotone(run: seq<Step>) {
    MonotoneBy((s: Step) => s.now, run)
  }

  /** A threshold rule, or a sequence rule that has steps. */
  predicate ReadsAndSaves(rule: Rule) {
    rule.aggregation.Some? &&
    var agg := rule.aggregation.value;
    agg.kind.Threshold? || (agg.kind.Sequence? && agg.steps != [])
  }

  /** The handler of this event runs GetState. The one that starts a sequence does not. */
  predicate Selects(rule: Rule, group: string, e: Event)
    requires ReadsAndSaves(rule)
  {
    var agg := rule.aggregation.value;
    && group != ""
    && if agg.kind.Threshold? then CheckConditions(rule.conditions, e) && ThresholdError(agg).None?
       else !CheckConditions(rule.conditions, e)
  }

  datatype Decision = Ignore | Keep(row: Row) | Fire(alert: Alert) | Crash

  /** What a handler decides from the live row it read. */
  function Decide(rule: Rule, group: string, existing: Option<Row>, now: Time, e: Event): Decision {
    var r := EvalCell(rule, group, existing, now, e);
    match r.outcome
    case Raised(alert) => Fire(alert)
    case Panicked => Crash
    case _ => if r.cell.Some? && r.cell != existing then Keep(r.cell.value) else Ignore
  }

  function Decided(rule: Rule, group: string, i: nat, e: Event, at: Time, existing: Option<Row>, uses: seq<Use>): Phase {
    var all := (if existing.None? then [] else uses) + [Use(i, Tick(at, e))];
    match Decide(rule, group, existing, at, e)
    case Ignore => Done
    case Crash => Crashed
    case Keep(row) => Saving(row, all)
    case Fire(alert) => Deleting(alert, all)
  }

  /** GetState's SELECT, where the handler has one, and the decision unless an expired row has to be
      deleted first. A failing SELECT ends the handler. */
  function DoRead(rule: Rule, group: string, w: World, i: nat, now: Time, ok: bool): World
    requires ReadsAndSaves(rule) && i < |w.handlers|
  {
    var h := w.handlers[i];
    var selects := Selects(rule, group, h.e);
    var row := if selects then w.row else None;
    var phase :=
      if selects && !ok then Done
      else if row.Some? && Expired(row.value, now) then Clearing
      else Decided(rule, group, i, h.e, now, row, w.uses);
    if h.phase.Fresh? then w.(handlers := w.handlers[i := Handler(h.e, now, phase)]) else w
  }

  /** GetState's DELETE of the row found expired: whatever row is there by now goes, unless the statement
      fails, which nobody notices. */
  function DoClear(rule: Rule, group: string, w: World, i: nat, ok: bool): World
    requires i < |w.handlers|
  {
    var h := w.handlers[i];
    if h.phase.Clearing?
    then w.(row := if ok then None else w.row,
            handlers := w.handlers[i := h.(phase := Decided(rule, group, i, h.e, h.at, None, []))])
    else w
  }

  /** SaveState; when it fails the row stays as it was. */
  function DoSave(w: World, i: nat, ok: bool): World
    requires i < |w.handlers|
  {
    var h := w.handlers[i];
    var handlers := w.handlers[i := h.(phase := Done)];
    if !h.phase.Saving? then w
    else if ok then World(Some(Overwritten(w.row, h.phase.row)), h.phase.uses, handlers, w.alerts)
    else w.(handlers := handlers)
  }

  /** DeleteState before the alert; its failure is only logged. */
  function DoDelete(w: World, i: nat, ok: bool): World
    requires i < |w.handlers|
  {
    var h := w.handlers[i];
    if h.phase.Deleting?
    then w.(row := if ok then None else w.row, handlers := w.handlers[i := h.(phase := Alerting(h.phase.alert, h.phase.uses))])
    else w
  }

  function DoAlert(w: World, i: nat): World
    requires i < |w.handlers|
  {
    var h := w.handlers[i];
    if h.phase.Alerting?
    then w.(handlers := w.handlers[i := h.(phase := Done)], alerts := w.alerts + [Report(h.phase.alert, h.phase.uses)])
    else w
  }

  function Next(rule: Rule, group: string, w: World, s: Step): World
    requires ReadsAndSaves(rule)
  {
    match s.op
    case Arrive(e) => w.(handlers := w.handlers + [Handler(e, s.now, Fresh)])
    case Sweep => w.(row := Live(w.row, s.now))
    case Read(i, ok) => if i < |w.handlers| then DoRead(rule, group, w, i, s.now, ok) else w
    case Clear(i, ok) => if i < |w.handlers| then DoClear(rule, group, w, i, ok) else w
    case Save(i, ok) => if i < |w.handlers| then DoSave(w, i, ok) else w
    case Delete(i, ok) => if i < |w.handlers| then DoDelete(w, i, ok) else w
    case Alert(i) => if i < |w.handlers| then DoAlert(w, i) else w
  }

  function Run(rule: Rule, group: string, run: seq<Step>): World
    requires ReadsAndSaves(rule)
  {
    if run == [] then World(None, [], [], [])
    else Next(rule, group, Run(rule, group, run[..|run| - 1]), run[|run| - 1])
  }

  /** The statements of one handler run without interruption; those that do not apply do nothing. */
  function Uninterrupted(rule: Rule, group: string, w: World, i: nat, now: Time): World
    requires ReadsAndSaves(rule) && i < |w.handlers|
  {
    Finished(DoClear(rule, group, DoRead(rule, group, w, i, now, true), i, true), i)
  }

  function Finished(w: World, i: nat): World
    requires i < |w.handlers|
  {
    DoAlert(DoDelete(DoSave(w, i, true), i, true), i)
  }

  /** What a decision makes of the row. */
  function Applied(d: Decision, c: Option<Row>): Option<Row> {
    match d
    case Keep(row) => Some(Overwritten(c, row))
    case Fire(_) => None
    case _ => c
  }

  lemma FinishedApplies(rule: Rule, group: string, w: World, i: nat, existing: Option<Row>, uses: seq<Use>)
    requires i < |w.handlers|
    requires w.handlers[i].phase == Decided(rule, group, i, w.handlers[i].e, w.handlers[i].at, existing, uses)
    ensures var d, w' := Decide(rule, group, existing, w.handlers[i].at, w.handlers[i].e), Finished(w, i);
            && w'.row == Applied(d, w.row)
            && (if d.Crash? then w'.handlers[i].phase.Crashed? else w'.handlers[i].phase.Done?)
            && (if d.Fire? then |w'.alerts| == |w.alerts| + 1 && w'.alerts[|w.alerts|].alert == d.alert
                else w'.alerts == w.alerts)
  {
    hide Decide;
  }

  /** The decision, applied to what GetState leaves, is what the sequential engine does. */
  lemma DecideIsEval(rule: Rule, group: string, c: Option<Row>, now: Time, e: Event)
    requires ReadsAndSaves(rule)
    ensures var r, selects := EvalCell(rule, group, c, now, e), Selects(rule, group, e);
            var d := Decide(rule, group, if selects then Live(c, now) else None, now, e);
            && r.cell == Applied(d, if selects then Live(c, now) else c)
            && (d.Crash? <==> r.outcome.Panicked?)
            && (if r.outcome.Raised? then d == Fire(r.outcome.alert) else !d.Fire?)
  {
  }

  /** A handler that is not interrupted does to the row what the sequential engine does, and raises an
      alert exactly when it does. */
  lemma UninterruptedIsSequential(rule: Rule, group: string, w: World, i: nat, now: Time)
    requires ReadsAndSaves(rule) && i < |w.handlers| && w.handlers[i].phase.Fresh?
    ensures var r := EvalCell(rule, group, w.row, now, w.handlers[i].e);
            var w' := Uninterrupted(rule, group, w, i, now);
            && w'.row == r.cell
            && (if r.outcome.Panicked? then w'.handlers[i].phase.Crashed? else w'.handlers[i].phase.Done?)
            && (if r.outcome.Raised? then |w'.alerts| == |w.alerts| + 1 && w'.alerts[|w.alerts|].alert == r.outcome.alert
                else w'.alerts == w.alerts)
  {
    hide EvalCell, Decide, Selects, Finished;
    var e := w.handlers[i].e;
    DecideIsEval(rule, group, w.row, now, e);
    var w1 := DoRead(rule, group, w, i, now, true);
    var w2 := DoClear(rule, group, w1, i, true);
    FinishedApplies(rule, group, w2, i, if Selects(rule, group, e) then Live(w.row, now) else None,
                    if w1.handlers[i].phase.Clearing? then [] else w.uses);
  }

  /** The background sweep takes the row iff its expiry has passed, whatever the handlers are about to do. */
  lemma SweepDropsExpired(rule: Rule, group: string, w: World, now: Time)
    requires ReadsAndSaves(rule)
    ensures Next(rule, group, w, Step(now, Sweep)) == if w.row.Some? && w.row.value.expiresAt < now then w.(row := None) else w
  {
  }

  /** A statement that fails leaves the row as it was: a handler whose SELECT or save fails ends without an
      alert, a failed DELETE changes nothing for its handler. */
  lemma FailuresLeaveRow(rule: Rule, group: string, w: World, i: nat, now: Time)
    requires ReadsAndSaves(rule) && i < |w.handlers|
    ensures DoClear(rule, group, w, i, false) == DoClear(rule, group, w, i, true).(row := w.row)
    ensures DoDelete(w, i, false) == DoDelete(w, i, true).(row := w.row)
    ensures w.handlers[i].phase.Saving? ==> DoSave(w, i, false) == w.(handlers := w.handlers[i := w.handlers[i].(phase := Done)])
    ensures w.handlers[i].phase.Fresh? && Selects(rule, group, w.handlers[i].e) ==>
              DoRead(rule, group, w, i, now, false)
                == w.(handlers := w.handlers[i := Handler(w.handlers[i].e, now, Done)])
  {
  }

  // ---------------------------------------------------------------- what rows and alerts say

  /** What a stored row and an alert have to say about the events behind them. */
  datatype Meaning = Meaning(row: (Row, seq<Tick>) -> bool, alert: (Alert, seq<Tick>) -> bool)

  predicate Means(m: Meaning, d: Decision, ticks: seq<Tick>) {
    match d
    case Ignore => true
    case Keep(row) => m.row(row, ticks)
    case Fire(alert) => m.alert(alert, ticks)
    case Crash => false
  }

  /** None of the events is later than `now`. */
  predicate UpTo(ticks: seq<Tick>, now: Time) {
    forall k :: 0 <= k < |ticks| ==> ticks[k].now <= now
  }

  /** A decision from no row is about its own event, whatever the handler. */
  ghost predicate SoundAlone(rule: Rule, group: string, m: Meaning) {
    forall now: Time, e: Event :: Means(m, Decide(rule, group, None, now, e), [Tick(now, e)])
  }

  /** A decision from a live row is about its own event and those behind the row. */
  ghost predicate SoundNext(rule: Rule, group: string, m: Meaning)
    requires ReadsAndSaves(rule)
  {
    forall row: Row, ticks: seq<Tick>, now: Time, e: Event ::
      m.row(row, ticks) && ticks != [] && UpTo(ticks, now) && !Expired(row, now) && Selects(rule, group, e) ==>
        Means(m, Decide(rule, group, Some(row), now, e), ticks + [Tick(now, e)])
  }

  /** The first_seen that a conflicting save keeps says nothing. */
  ghost predicate SoundSave(m: Meaning) {
    forall row: Row, ticks: seq<Tick>, stored: Option<Row> :: m.row(row, ticks) ==> m.row(Overwritten(stored, row), ticks)
  }

  /** The sequential decisions of the rule keep the meaning. */
  ghost predicate Sound(rule: Rule, group: string, m: Meaning)
    requires ReadsAndSaves(rule)
  {
    SoundAlone(rule, group, m) && SoundNext(rule, group, m) && SoundSave(m)
  }

  // ---------------------------------------------------------------- every interleaving keeps the meaning

  function TicksOf(uses: seq<Use>): (ticks: seq<Tick>)
    ensures |ticks| == |uses|
  {
    seq(|uses|, i requires 0 <= i < |uses| => uses[i].tick)
  }

  /** At least one event, and each of a different handler. */
  predicate DistinctHandlers(uses: seq<Use>) {
    && uses != []
    && forall i, j :: 0 <= i < j < |uses| ==> uses[i].handler != uses[j].handler
  }

  /** The event belongs to a handler that has finished, and is recorded with the time it read. */
  predicate Settled(handlers: seq<Handler>, u: Use) {
    && u.handler < |handlers|
    && handlers[u.handler].phase.Done?
    && u.tick == Tick(handlers[u.handler].at, handlers[u.handler].e)
  }

  ghost predicate AllSettled(handlers: seq<Handler>, uses: seq<Use>) {
    forall i :: 0 <= i < |uses| ==> Settled(handlers, uses[i])
  }

  ghost predicate RowGenuine(m: Meaning, row: Row, uses: seq<Use>) {
    DistinctHandlers(uses) && m.row(row, TicksOf(uses))
  }

  ghost predicate AlertGenuine(m: Meaning, alert: Alert, uses: seq<Use>) {
    DistinctHandlers(uses) && m.alert(alert, TicksOf(uses))
  }

  /** A decided handler adds its own event to events that were settled before. */
  ghost predicate OwnUses(handlers: seq<Handler>, i: nat, uses: seq<Use>)
    requires i < |handlers|
  {
    && uses != []
    && uses[|uses| - 1] == Use(i, Tick(handlers[i].at, handlers[i].e))
    && AllSettled(handlers, uses[..|uses| - 1])
  }

  ghost predicate HandlerOk(m: Meaning, handlers: seq<Handler>, i: nat, clock: Time)
    requires i < |handlers|
  {
    && handlers[i].at <= clock
    && match handlers[i].phase
       case Saving(row, uses) => RowGenuine(m, row, uses) && OwnUses(handlers, i, uses)
       case Deleting(alert, uses) => AlertGenuine(m, alert, uses) && OwnUses(handlers, i, uses)
       case Alerting(alert, uses) => AlertGenuine(m, alert, uses) && OwnUses(handlers, i, uses)
       case Crashed => false
       case _ => true
  }

  /** A stored row and every alert are about settled events, and no handler has panicked. */
  ghost predicate Inv(m: Meaning, w: World, clock: Time) {
    && (w.row.Some? ==> RowGenuine(m, w.row.value, w.uses) && AllSettled(w.handlers, w.uses))
    && (forall i :: 0 <= i < |w.handlers| ==> HandlerOk(m, w.handlers, i, clock))
    && (forall k :: 0 <= k < |w.alerts| ==>
         AlertGenuine(m, w.alerts[k].alert, w.alerts[k].uses) && AllSettled(w.handlers, w.alerts[k].uses))
  }

  /** Moving one handler on does not disturb what the others rely on. */
  lemma Undisturbed(hs: seq<Handler>, hs': seq<Handler>, i: nat, uses: seq<Use>)
    requires i < |hs| == |hs'| && (forall k :: 0 <= k < |hs| && k != i ==> hs'[k] == hs[k])
    requires !hs[i].phase.Done? && AllSettled(hs, uses)
    ensures AllSettled(hs', uses)
    ensures forall k :: 0 <= k < |uses| ==> uses[k].handler != i
  {
    forall k | 0 <= k < |uses| ensures Settled(hs', uses[k]) && uses[k].handler != i {
      assert Settled(hs, uses[k]);
    }
  }

  /** One handler moves on to a phase that is itself in order. */
  lemma MoveKeepsInv(m: Meaning, w: World, clock: Time, i: nat, h: Handler)
    requires Inv(m, w, clock) && i < |w.handlers| && !w.handlers[i].phase.Done?
    requires HandlerOk(m, w.handlers[i := h], i, clock)
    ensures Inv(m, w.(handlers := w.handlers[i := h]), clock)
  {
    hide RowGenuine, AlertGenuine;
    var hs := w.handlers[i := h];
    if w.row.Some? {
      Undisturbed(w.handlers, hs, i, w.uses);
    }
    forall k | 0 <= k < |w.alerts| ensures AllSettled(hs, w.alerts[k].uses) {
      Undisturbed(w.handlers, hs, i, w.alerts[k].uses);
    }
    forall j | 0 <= j < |hs| ensures HandlerOk(m, hs, j, clock) {
      if j != i {
        assert HandlerOk(m, w.handlers, j, clock);
        match hs[j].phase
        case Saving(_, uses) => Undisturbed(w.handlers, hs, i, uses[..|uses| - 1]);
        case Deleting(_, uses) => Undisturbed(w.handlers, hs, i, uses[..|uses| - 1]);
        case Alerting(_, uses) => Undisturbed(w.handlers, hs, i, uses[..|uses| - 1]);
        case _ =>
      }
    }
  }

  /** The last statement of a handler leaves all its events settled. */
  lemma FinishedSettles(hs: seq<Handler>, i: nat, uses: seq<Use>)
    requires i < |hs| && OwnUses(hs, i, uses) && !hs[i].phase.Done?
    ensures AllSettled(hs[i := hs[i].(phase := Done)], uses)
  {
    var hs' := hs[i := hs[i].(phase := Done)];
    forall k | 0 <= k < |uses| ensures Settled(hs', uses[k]) {
      if k < |uses| - 1 {
        assert uses[..|uses| - 1][k] == uses[k];
        assert Settled(hs, uses[k]);
      }
    }
  }

  /** A decision from no row is genuine. */
  lemma AloneGenuine(rule: Rule, group: string, m: Meaning, hs: seq<Handler>, i: nat, h: Handler, clock: Time)
    requires ReadsAndSaves(rule) && Sound(rule, group, m) && i < |hs| && h.at <= clock
    requires h.phase == Decided(rule, group, i, h.e, h.at, None, [])
    ensures HandlerOk(m, hs[i := h], i, clock)
  {
    hide Decide, SoundNext, SoundSave;
    var own := [Use(i, Tick(h.at, h.e))];
    assert [] + own == own && own[..0] == [];
    assert TicksOf(own) == [Tick(h.at, h.e)];
  }

  /** So is one from a genuine row. */
  lemma NextGenuine(rule: Rule, group: string, m: Meaning, hs: seq<Handler>, i: nat, h: Handler, clock: Time, row: Row, uses: seq<Use>)
    requires ReadsAndSaves(rule) && Sound(rule, group, m) && i < |hs| && !hs[i].phase.Done? && h.at <= clock
    requires RowGenuine(m, row, uses) && AllSettled(hs, uses) && UpTo(TicksOf(uses), h.at)
    requires !Expired(row, h.at) && Selects(rule, group, h.e)
    requires h.phase == Decided(rule, group, i, h.e, h.at, Some(row), uses)
    ensures HandlerOk(m, hs[i := h], i, clock)
  {
    hide Decide, SoundAlone, SoundSave, Selects, UpTo;
    var all := uses + [Use(i, Tick(h.at, h.e))];
    Undisturbed(hs, hs[i := h], i, uses);
    assert all[..|all| - 1] == uses;
    assert TicksOf(all) == TicksOf(uses) + [Tick(h.at, h.e)];
    assert Means(m, Decide(rule, group, Some(row), h.at, h.e), TicksOf(all));
  }

  lemma ReadKeepsInv(rule: Rule, group: string, m: Meaning, w: World, i: nat, now: Time, ok: bool)
    requires ReadsAndSaves(rule) && Sound(rule, group, m) && Inv(m, w, now)
    requires i < |w.handlers| && w.handlers[i].phase.Fresh?
    ensures Inv(m, DoRead(rule, group, w, i, now, ok), now)
  {
    hide Decided, Selects, Sound, RowGenuine, AlertGenuine;
    var h := DoRead(rule, group, w, i, now, ok).handlers[i];
    if !h.phase.Clearing? && (ok || !Selects(rule, group, h.e)) {
      if Selects(rule, group, h.e) && w.row.Some? {
        forall k | 0 <= k < |w.uses| ensures w.uses[k].tick.now <= now {
          assert Settled(w.handlers, w.uses[k]) && HandlerOk(m, w.handlers, w.uses[k].handler, now);
        }
        NextGenuine(rule, group, m, w.handlers, i, h, now, w.row.value, w.uses);
      } else {
        DecidedAlone(rule, group, i, h.e, now, w.uses);
        AloneGenuine(rule, group, m, w.handlers, i, h, now);
      }
    }
    MoveKeepsInv(m, w, now, i, h);
  }

  lemma DecidedAlone(rule: Rule, group: string, i: nat, e: Event, at: Time, uses: seq<Use>)
    ensures Decided(rule, group, i, e, at, None, uses) == Decided(rule, group, i, e, at, None, [])
  {
  }

  lemma ClearKeepsInv(rule: Rule, group: string, m: Meaning, w: World, i: nat, ok: bool, now: Time)
    requires ReadsAndSaves(rule) && Sound(rule, group, m) && Inv(m, w, now) && i < |w.handlers|
    ensures Inv(m, DoClear(rule, group, w, i, ok), now)
  {
    hide Decided, Sound, RowGenuine, AlertGenuine;
    var h := w.handlers[i];
    if h.phase.Clearing? {
      assert HandlerOk(m, w.handlers, i, now);
      var h' := h.(phase := Decided(rule, group, i, h.e, h.at, None, []));
      AloneGenuine(rule, group, m, w.handlers, i, h', now);
      MoveKeepsInv(m, w.(row := if ok then None else w.row), now, i, h');
    }
  }

  lemma SaveKeepsInv(rule: Rule, group: string, m: Meaning, w: World, i: nat, ok: bool, now: Time)
    requires ReadsAndSaves(rule) && Sound(rule, group, m) && Inv(m, w, now) && i < |w.handlers|
    ensures Inv(m, DoSave(w, i, ok), now)
  {
    hide SoundAlone, SoundNext;
    var h := w.handlers[i];
    if h.phase.Saving? {
      assert HandlerOk(m, w.handlers, i, now);
      MoveKeepsInv(m, w, now, i, h.(phase := Done));
      FinishedSettles(w.handlers, i, h.phase.uses);
    }
  }

  lemma DeleteKeepsInv(m: Meaning, w: World, i: nat, ok: bool, now: Time)
    requires Inv(m, w, now) && i < |w.handlers|
    ensures Inv(m, DoDelete(w, i, ok), now)
  {
    var h := w.handlers[i];
    if h.phase.Deleting? {
      assert HandlerOk(m, w.handlers, i, now);
      var h', uses := h.(phase := Alerting(h.phase.alert, h.phase.uses)), h.phase.uses;
      Undisturbed(w.handlers, w.handlers[i := h'], i, uses[..|uses| - 1]);
      MoveKeepsInv(m, w.(row := if ok then None else w.row), now, i, h');
    }
  }

  lemma AlertKeepsInv(m: Meaning, w: World, i: nat, now: Time)
    requires Inv(m, w, now) && i < |w.handlers|
    ensures Inv(m, DoAlert(w, i), now)
  {
    var h := w.handlers[i];
    if h.phase.Alerting? {
      assert HandlerOk(m, w.handlers, i, now);
      MoveKeepsInv(m, w, now, i, h.(phase := Done));
      FinishedSettles(w.handlers, i, h.phase.uses);
    }
  }

  lemma ArriveKeepsInv(m: Meaning, w: World, e: Event, now: Time)
    requires Inv(m, w, now)
    ensures Inv(m, w.(handlers := w.handlers + [Handler(e, now, Fresh)]), now)
  {
    hide RowGenuine, AlertGenuine;
    var hs := w.handlers + [Handler(e, now, Fresh)];
    forall uses | AllSettled(w.handlers, uses) ensures AllSettled(hs, uses) {
      forall k | 0 <= k < |uses| ensures Settled(hs, uses[k]) {
        assert Settled(w.handlers, uses[k]);
      }
    }
    forall i | 0 <= i < |hs| ensures HandlerOk(m, hs, i, now) {
      if i < |w.handlers| {
        assert HandlerOk(m, w.handlers, i, now);
      }
    }
  }

  lemma InvLater(m: Meaning, w: World, clock: Time, later: Time)
    requires Inv(m, w, clock) && clock <= later
    ensures Inv(m, w, later)
  {
    forall i | 0 <= i < |w.handlers| ensures HandlerOk(m, w.handlers, i, later) {
      assert HandlerOk(m, w.handlers, i, clock);
    }
  }

  lemma NextKeepsInv(rule: Rule, group: string, m: Meaning, w: World, s: Step)
    requires ReadsAndSaves(rule) && Sound(rule, group, m) && Inv(m, w, s.now)
    ensures Inv(m, Next(rule, group, w, s), s.now)
  {
    hide Sound;
    match s.op {
      case Arrive(e) => ArriveKeepsInv(m, w, e, s.now);
      case Sweep =>
      case Read(i, ok) => if i < |w.handlers| && w.handlers[i].phase.Fresh? { ReadKeepsInv(rule, group, m, w, i, s.now, ok); }
      case Clear(i, ok) => if i < |w.handlers| { ClearKeepsInv(rule, group, m, w, i, ok, s.now); }
      case Save(i, ok) => if i < |w.handlers| { SaveKeepsInv(rule, group, m, w, i, ok, s.now); }
      case Delete(i, ok) => if i < |w.handlers| { DeleteKeepsInv(m, w, i, ok, s.now); }
      case Alert(i) => if i < |w.handlers| { AlertKeepsInv(m, w, i, s.now); }
    }
  }

  /** Whatever meaning the sequential decisions keep, every interleaving of the statements keeps: each
      stored row and each alert is about events of distinct handlers that have finished, and no handler
      panics. */
  lemma {:induction false} RunKeepsInv(rule: Rule, group: string, m: Meaning, run: seq<Step>, clock: Time)
    requires ReadsAndSaves(rule) && Sound(rule, group, m)
    requires Monotone(run) && (run != [] ==> run[|run| - 1].now <= clock)
    ensures Inv(m, Run(rule, group, run), clock)
  {
    hide Sound, Next;
    if run != [] {
      var init, s := run[..|run| - 1], run[|run| - 1];
      RunKeepsInv(rule, group, m, init, s.now);
      NextKeepsInv(rule, group, m, Run(rule, group, init), s);
      InvLater(m, Run(rule, group, run), s.now, clock);
    }
  }

  /** The same, without the handlers under way. */
  lemma RunGenuine(rule: Rule, group: string, m: Meaning, run: seq<Step>)
    requires ReadsAndSaves(rule) && Sound(rule, group, m) && Monotone(run)
    ensures var w := Run(rule, group, run);
            && (w.row.Some? ==> RowGenuine(m, w.row.value, w.uses) && AllSettled(w.handlers, w.uses))
            && (forall k :: 0 <= k < |w.alerts| ==>
                 AlertGenuine(m, w.alerts[k].alert, w.alerts[k].uses) && AllSettled(w.handlers, w.alerts[k].uses))
            && (forall i :: 0 <= i < |w.handlers| ==> !w.handlers[i].phase.Crashed?)
  {
    hide Sound, Run, RowGenuine, AlertGenuine;
    var clock, w := if run == [] then 0 else run[|run| - 1].now, Run(rule, group, run);
    RunKeepsInv(rule, group, m, run, clock);
    forall i | 0 <= i < |w.handlers| ensures !w.handlers[i].phase.Crashed? {
      assert HandlerOk(m, w.handlers, i, clock);
    }
  }
}
