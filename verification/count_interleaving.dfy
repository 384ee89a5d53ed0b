/** Count handlers running at once: the increment is atomic, but the delete and the alert that follow
    it are separate statements that other handlers may overtake. One (rule, group) pair. */
module CountInterleaving {
  import opened Clock
  import opened Wrappers
  import opened Rules
  import opened State
  import opened Sequences
  import opened Correlation

  datatype Stage = Deleting | Raising | Finished

  /** A handler whose increment returned a counter at or above the threshold. */
  datatype Handler = Handler(incarnation: nat, counter: int, stage: Stage)

  /** The row, the handlers with work left or done, and the log: for every incarnation of the row, the
      times of the increments it received. */
  datatype World = World(row: Option<Row>, handlers: seq<Handler>, incarnations: seq<seq<Time>>)

  datatype Op = Increment | Delete(handler: nat, ok: bool) | Raise(handler: nat) | Sweep

  datatype Step = Step(now: Time, op: Op)

  ghost predicate Monotone(run: seq<Step>) {
    MonotoneBy((s: Step) => s.now, run)
  }

  /** The log after an increment: it opens an incarnation or adds to the last one. */
  function Logged(w: World, now: Time): seq<seq<Time>> {
    if w.incarnations == [] || Live(w.row, now).None? then w.incarnations + [[now]]
    else
      var n := |w.incarnations| - 1;
      w.incarnations[..n] + [w.incarnations[n] + [now]]
  }

  function Next(threshold: int, window: int, w: World, s: Step): World {
    match s.op
    case Increment =>
      var st := Upserted(w.row, s.now, window);
      var log := Logged(w, s.now);
      World(Some(st),
            if st.counter >= threshold then w.handlers + [Handler(|log| - 1, st.counter, Deleting)] else w.handlers,
            log)
    case Delete(i, ok) =>
      if i < |w.handlers| && w.handlers[i].stage.Deleting?
      then World(if ok then None else w.row, w.handlers[i := w.handlers[i].(stage := Raising)], w.incarnations)
      else w
    case Raise(i) =>
      if i < |w.handlers| && w.handlers[i].stage.Raising?
      then w.(handlers := w.handlers[i := w.handlers[i].(stage := Finished)])
      else w
    case Sweep => w.(row := Live(w.row, s.now))
  }

  function Run(threshold: int, window: int, run: seq<Step>): World {
    if run == [] then World(None, [], [])
    else Next(threshold, window, Run(threshold, window, run[..|run| - 1]), run[|run| - 1])
  }

  /** A handler that is not interrupted does to the row what the sequential engine does, and raises an
      alert exactly when it does. */
  lemma UninterruptedIsSequential(agg: Aggregation, group: string, w: World, now: Time)
    requires CountError(agg).None? && group != ""
    ensures var t, window, n := agg.threshold, agg.window.length, |w.handlers|;
            var w1 := Next(t, window, w, Step(now, Increment));
            var w' := Next(t, window, Next(t, window, w1, Step(now, Delete(n, true))), Step(now, Raise(n)));
            var r := CountCell(agg, group, w.row, now);
            && w'.row == r.cell
            && (if r.outcome.Raised? then |w'.handlers| == n + 1 && w'.handlers[n].stage.Finished?
                                          && w'.handlers[n].counter == r.outcome.alert.counter
                else w'.handlers == w.handlers)
  {
  }

  /** A failed DELETE leaves the row for the next increment, and the handler goes on to raise its alert; the
      sweep takes the row iff its expiry has passed. */
  lemma FailedDeleteAndSweep(threshold: int, window: int, w: World, now: Time, i: nat)
    requires i < |w.handlers| && w.handlers[i].stage.Deleting?
    ensures var w' := Next(threshold, window, w, Step(now, Delete(i, false)));
            && w'.row == w.row && w'.incarnations == w.incarnations
            && w'.handlers == w.handlers[i := Handler(w.handlers[i].incarnation, w.handlers[i].counter, Raising)]
    ensures Next(threshold, window, w, Step(now, Sweep)) == if w.row.Some? && w.row.value.expiresAt < now then w.(row := None) else w
  {
  }

  /** The times of the increments of a run. */
  function Increments(run: seq<Step>): seq<Time> {
    if run == [] then []
    else
      var s := run[|run| - 1];
      Increments(run[..|run| - 1]) + (if s.op.Increment? then [s.now] else [])
  }

  /** The counters reported by the handlers of incarnation k, in order. */
  function Counters(handlers: seq<Handler>, k: nat): seq<int> {
    if handlers == [] then []
    else
      var h := handlers[|handlers| - 1];
      Counters(handlers[..|handlers| - 1], k) + (if h.incarnation == k then [h.counter] else [])
  }

  function Excess(hits: nat, threshold: int): nat {
    if hits < threshold then 0 else hits - threshold + 1
  }

  /** T, T + 1, ..., up to the number of hits. */
  function Overshoots(hits: nat, threshold: int): seq<int> {
    seq(Excess(hits, threshold), i => threshold + i)
  }

  /** The hits of an incarnation lie in one window. */
  ghost predicate InOneWindow(hits: seq<Time>, window: int) {
    && hits != []
    && forall i :: 0 < i < |hits| ==> hits[0] <= hits[i] <= hits[0] + window
  }

  /** Incarnation k spans one window, and its handlers reported T, T + 1, ... up to its last hit. */
  ghost predicate IncarnationOk(threshold: int, window: int, log: seq<seq<Time>>, handlers: seq<Handler>, k: nat, clock: Time)
    requires k < |log|
  {
    && InOneWindow(log[k], window)
    && log[k][0] <= clock
    && Counters(handlers, k) == Overshoots(|log[k]|, threshold)
  }

  ghost predicate HandlerOk(threshold: int, log: seq<seq<Time>>, h: Handler) {
    h.incarnation < |log| && threshold <= h.counter <= |log[h.incarnation]|
  }

  /** A stored row is the last incarnation. */
  ghost predicate RowOk(window: int, log: seq<seq<Time>>, row: Option<Row>) {
    row.Some? ==>
      && log != [] && log[|log| - 1] != []
      && row.value.counter == |log[|log| - 1]|
      && row.value.expiresAt == log[|log| - 1][0] + window
  }

  ghost predicate Inv(threshold: int, window: int, w: World, clock: Time) {
    && (forall k :: 0 <= k < |w.incarnations| ==> IncarnationOk(threshold, window, w.incarnations, w.handlers, k, clock))
    && (forall i :: 0 <= i < |w.handlers| ==> HandlerOk(threshold, w.incarnations, w.handlers[i]))
    && RowOk(window, w.incarnations, w.row)
  }

  lemma {:induction false} CountersUpdate(handlers: seq<Handler>, k: nat, i: nat, stage: Stage)
    requires i < |handlers|
    ensures Counters(handlers[i := handlers[i].(stage := stage)], k) == Counters(handlers, k)
  {
    var n := |handlers| - 1;
    var updated := handlers[i := handlers[i].(stage := stage)];
    if i < n {
      CountersUpdate(handlers[..n], k, i, stage);
      assert updated[..n] == handlers[..n][i := handlers[i].(stage := stage)];
    } else {
      assert updated[..n] == handlers[..n];
    }
  }

  lemma {:induction false} NoCounters(handlers: seq<Handler>, k: nat)
    requires forall i :: 0 <= i < |handlers| ==> handlers[i].incarnation != k
    ensures Counters(handlers, k) == []
  {
    if handlers != [] {
      NoCounters(handlers[..|handlers| - 1], k);
    }
  }

  lemma OvershootsGrow(hits: nat, threshold: int)
    requires threshold >= 1
    ensures Overshoots(hits + 1, threshold) ==
              Overshoots(hits, threshold) + (if hits + 1 >= threshold then [hits + 1] else [])
  {
  }

  lemma CountersSnoc(handlers: seq<Handler>, h: Handler, k: nat)
    ensures Counters(handlers + [h], k) == Counters(handlers, k) + (if h.incarnation == k then [h.counter] else [])
  {
    assert (handlers + [h])[..|handlers|] == handlers;
  }

  /** The incarnation an increment joins, as far as it has got; empty when it opens one. */
  function Joined(w: World, now: Time): seq<Time> {
    if w.incarnations == [] || Live(w.row, now).None? then [] else w.incarnations[|w.incarnations| - 1]
  }

  /** What an increment does to the log, and that the row's counter and expiry keep up with it. */
  lemma LoggedShape(window: int, w: World, now: Time)
    requires RowOk(window, w.incarnations, w.row)
    ensures var log := Logged(w, now);
            && log != []
            && |log| - 1 <= |w.incarnations| <= |log|
            && (forall k :: 0 <= k < |log| - 1 ==> log[k] == w.incarnations[k])
            && log[|log| - 1] == Joined(w, now) + [now]
            && (Joined(w, now) == [] <==> |w.incarnations| == |log| - 1)
            && (Joined(w, now) != [] ==> Joined(w, now) == w.incarnations[|log| - 1] && now <= Joined(w, now)[0] + window)
            && Upserted(w.row, now, window).counter == |Joined(w, now)| + 1
            && RowOk(window, log, Some(Upserted(w.row, now, window)))
  {
  }

  /** The handlers after an increment of incarnation n that brought it to `counter`. */
  function WithHandler(threshold: int, handlers: seq<Handler>, n: nat, counter: int): seq<Handler> {
    if counter >= threshold then handlers + [Handler(n, counter, Deleting)] else handlers
  }

  lemma CountersJoin(threshold: int, handlers: seq<Handler>, n: nat, hits: nat, k: nat)
    requires threshold >= 1
    requires k == n ==> Counters(handlers, k) == Overshoots(hits, threshold)
    ensures Counters(WithHandler(threshold, handlers, n, hits + 1), k) ==
              if k == n then Overshoots(hits + 1, threshold) else Counters(handlers, k)
  {
    OvershootsGrow(hits, threshold);
    CountersSnoc(handlers, Handler(n, hits + 1, Deleting), k);
  }

  /** An old incarnation after an increment: untouched, or one hit longer. */
  lemma IncarnationKept(threshold: int, window: int, w: World, clock: Time, now: Time, k: nat)
    requires threshold >= 1 && Inv(threshold, window, w, clock) && clock <= now && k < |w.incarnations| && k < |Logged(w, now)|
    ensures var log := Logged(w, now);
            && InOneWindow(log[k], window)
            && log[k][0] <= now
            && var hits := if k == |log| - 1 then |Joined(w, now)| else |log[k]|;
            (k < |log| - 1 || Joined(w, now) != [] ==> Counters(w.handlers, k) == Overshoots(hits, threshold))
  {
    hide Upserted, Counters, Overshoots, Logged, Joined;
    LoggedShape(window, w, now);
    assert IncarnationOk(threshold, window, w.incarnations, w.handlers, k, clock);
  }

  /** A new incarnation: nothing was reported for it yet. */
  lemma IncarnationBorn(threshold: int, window: int, w: World, clock: Time, now: Time, k: nat)
    requires threshold >= 1 && Inv(threshold, window, w, clock) && k == |w.incarnations| < |Logged(w, now)|
    ensures Joined(w, now) == [] && Logged(w, now)[k] == [now] && Counters(w.handlers, k) == Overshoots(0, threshold)
  {
    hide Upserted, Logged, Joined;
    LoggedShape(window, w, now);
    forall i | 0 <= i < |w.handlers| ensures w.handlers[i].incarnation != k {
      assert HandlerOk(threshold, w.incarnations, w.handlers[i]);
    }
    NoCounters(w.handlers, k);
  }

  lemma IncarnationsKeepOk(threshold: int, window: int, w: World, clock: Time, now: Time, k: nat)
    requires threshold >= 1 && Inv(threshold, window, w, clock) && clock <= now && k < |Logged(w, now)|
    ensures var log := Logged(w, now); var hits := |Joined(w, now)|;
            IncarnationOk(threshold, window, log, WithHandler(threshold, w.handlers, |log| - 1, hits + 1), k, now)
  {
    hide Upserted, Counters, Overshoots, WithHandler, Logged, Joined, Inv;
    LoggedFits(threshold, window, w, clock, now);
    if k < |w.incarnations| {
      IncarnationKept(threshold, window, w, clock, now, k);
    } else {
      IncarnationBorn(threshold, window, w, clock, now, k);
    }
    CountersJoin(threshold, w.handlers, |Logged(w, now)| - 1, |Joined(w, now)|, k);
  }

  lemma LoggedFits(threshold: int, window: int, w: World, clock: Time, now: Time)
    requires Inv(threshold, window, w, clock)
    ensures var log := Logged(w, now);
            && log != [] && |log| - 1 <= |w.incarnations| <= |log|
            && log[|log| - 1] == Joined(w, now) + [now]
            && (Joined(w, now) == [] <==> |w.incarnations| == |log| - 1)
            && Upserted(w.row, now, window).counter == |Joined(w, now)| + 1
            && RowOk(window, log, Some(Upserted(w.row, now, window)))
  {
    hide Upserted, Logged, Joined, RowOk;
    LoggedShape(window, w, now);
  }

  /** Earlier handlers still fit the longer log. */
  lemma HandlersFit(threshold: int, window: int, w: World, clock: Time, now: Time, i: nat)
    requires Inv(threshold, window, w, clock) && i < |w.handlers|
    ensures HandlerOk(threshold, Logged(w, now), w.handlers[i])
  {
    hide Upserted, Logged, Joined;
    LoggedShape(window, w, now);
    assert HandlerOk(threshold, w.incarnations, w.handlers[i]);
  }

  /** All handlers after an increment fit the longer log, the new one included. */
  lemma AllHandlersFit(threshold: int, window: int, w: World, clock: Time, now: Time)
    requires Inv(threshold, window, w, clock)
    ensures var log, hits := Logged(w, now), |Joined(w, now)|;
            var handlers := WithHandler(threshold, w.handlers, |log| - 1, hits + 1);
            forall i :: 0 <= i < |handlers| ==> HandlerOk(threshold, log, handlers[i])
  {
    hide Upserted, Logged, Joined, RowOk, IncarnationOk, Inv;
    LoggedFits(threshold, window, w, clock, now);
    var log, hits := Logged(w, now), |Joined(w, now)|;
    var handlers := WithHandler(threshold, w.handlers, |log| - 1, hits + 1);
    forall i | 0 <= i < |handlers| ensures HandlerOk(threshold, log, handlers[i]) {
      if i < |w.handlers| {
        HandlersFit(threshold, window, w, clock, now, i);
      }
    }
  }

  lemma IncrementKeepsInv(threshold: int, window: int, w: World, clock: Time, s: Step)
    requires threshold >= 1 && Inv(threshold, window, w, clock) && clock <= s.now && s.op.Increment?
    ensures Inv(threshold, window, Next(threshold, window, w, s), s.now)
  {
    hide Upserted, Logged, Joined, IncarnationOk, RowOk, HandlerOk;
    LoggedFits(threshold, window, w, clock, s.now);
    AllHandlersFit(threshold, window, w, clock, s.now);
    var log := Logged(w, s.now);
    var handlers := WithHandler(threshold, w.handlers, |log| - 1, |Joined(w, s.now)| + 1);
    assert Next(threshold, window, w, s) == World(Some(Upserted(w.row, s.now, window)), handlers, log);
    forall k | 0 <= k < |log| ensures IncarnationOk(threshold, window, log, handlers, k, s.now) {
      IncarnationsKeepOk(threshold, window, w, clock, s.now, k);
    }
  }

  lemma StageKeepsInv(threshold: int, window: int, w: World, clock: Time, i: nat, stage: Stage, row: Option<Row>)
    requires Inv(threshold, window, w, clock) && i < |w.handlers| && (row.None? || row == w.row)
    ensures Inv(threshold, window, World(row, w.handlers[i := w.handlers[i].(stage := stage)], w.incarnations), clock)
  {
    var hs := w.handlers[i := w.handlers[i].(stage := stage)];
    forall k | 0 <= k < |w.incarnations| ensures IncarnationOk(threshold, window, w.incarnations, hs, k, clock) {
      assert IncarnationOk(threshold, window, w.incarnations, w.handlers, k, clock);
      CountersUpdate(w.handlers, k, i, stage);
    }
    forall j | 0 <= j < |hs| ensures HandlerOk(threshold, w.incarnations, hs[j]) {
      assert HandlerOk(threshold, w.incarnations, w.handlers[j]);
    }
  }

  lemma InvLater(threshold: int, window: int, w: World, clock: Time, later: Time)
    requires Inv(threshold, window, w, clock) && clock <= later
    ensures Inv(threshold, window, w, later)
  {
    forall k | 0 <= k < |w.incarnations|
      ensures IncarnationOk(threshold, window, w.incarnations, w.handlers, k, later)
    {
      assert IncarnationOk(threshold, window, w.incarnations, w.handlers, k, clock);
    }
  }

  lemma {:induction false} RunKeepsInv(threshold: int, window: int, run: seq<Step>, clock: Time)
    requires threshold >= 1 && Monotone(run) && (run != [] ==> run[|run| - 1].now <= clock)
    ensures Inv(threshold, window, Run(threshold, window, run), clock)
  {
    if run != [] {
      var init, s := run[..|run| - 1], run[|run| - 1];
      RunKeepsInv(threshold, window, init, s.now);
      var w := Run(threshold, window, init);
      match s.op {
        case Increment => IncrementKeepsInv(threshold, window, w, s.now, s);
        case Delete(i, ok) =>
          if i < |w.handlers| {
            StageKeepsInv(threshold, window, w, s.now, i, Raising, if ok then None else w.row);
          }
        case Raise(i) =>
          if i < |w.handlers| {
            StageKeepsInv(threshold, window, w, s.now, i, Finished, w.row);
          }
        case Sweep =>
      }
      InvLater(threshold, window, Run(threshold, window, run), s.now, clock);
    }
  }

  /** Under every interleaving, the incarnations of the row split the increments among them: their
      final counters add up to the number of increments, none lost and none counted twice. */
  lemma {:induction false} IncarnationsPartition(threshold: int, window: int, run: seq<Step>)
    requires threshold >= 1
    ensures Flatten(Run(threshold, window, run).incarnations) == Increments(run)
  {
    hide Upserted;
    if run != [] {
      var init, s := run[..|run| - 1], run[|run| - 1];
      IncarnationsPartition(threshold, window, init);
      if s.op.Increment? {
        var w := Run(threshold, window, init);
        var n := |w.incarnations| - 1;
        if w.incarnations == [] || Live(w.row, s.now).None? {
          FlattenSnoc(w.incarnations, [s.now]);
        } else {
          FlattenSnoc(w.incarnations[..n], w.incarnations[n] + [s.now]);
        }
      }
    }
  }

  /** Under every interleaving, an alert (and a handler about to raise one) is witnessed by at least
      `threshold` increments of one incarnation of the row, inside one window. */
  lemma AlertsWitnessed(threshold: int, window: int, run: seq<Step>, i: nat)
    requires threshold >= 1 && Monotone(run)
    requires i < |Run(threshold, window, run).handlers|
    ensures var w := Run(threshold, window, run); var h := w.handlers[i];
            && h.incarnation < |w.incarnations|
            && threshold <= h.counter <= |w.incarnations[h.incarnation]|
            && InOneWindow(w.incarnations[h.incarnation][..h.counter], window)
  {
    var clock := if run == [] then 0 else run[|run| - 1].now;
    RunKeepsInv(threshold, window, run, clock);
    var w := Run(threshold, window, run);
    assert HandlerOk(threshold, w.incarnations, w.handlers[i]);
    assert IncarnationOk(threshold, window, w.incarnations, w.handlers, w.handlers[i].incarnation, clock);
  }

  /** The alerts already raised for incarnation k. */
  function Raised(handlers: seq<Handler>, k: nat): nat {
    if handlers == [] then 0
    else
      var h := handlers[|handlers| - 1];
      Raised(handlers[..|handlers| - 1], k) + (if h.incarnation == k && h.stage.Finished? then 1 else 0)
  }

  /** The handlers of incarnation k are done; those of other incarnations may be anywhere. */
  ghost predicate AllFinished(handlers: seq<Handler>, k: nat) {
    forall i :: 0 <= i < |handlers| && handlers[i].incarnation == k ==> handlers[i].stage.Finished?
  }

  lemma {:induction false} RaisedIsCounters(handlers: seq<Handler>, k: nat)
    ensures Raised(handlers, k) <= |Counters(handlers, k)|
    ensures AllFinished(handlers, k) ==> Raised(handlers, k) == |Counters(handlers, k)|
  {
    if handlers != [] {
      RaisedIsCounters(handlers[..|handlers| - 1], k);
    }
  }

  /** An incarnation that reached counter c never raises more than max(0, c - T + 1) alerts, and has
      raised exactly that many once its own handlers have finished. */
  lemma AlertsPerIncarnation(threshold: int, window: int, run: seq<Step>, k: nat)
    requires threshold >= 1 && Monotone(run)
    requires k < |Run(threshold, window, run).incarnations|
    ensures var w := Run(threshold, window, run); var c := |w.incarnations[k]|;
            && Raised(w.handlers, k) <= Excess(c, threshold)
            && (AllFinished(w.handlers, k) ==> Raised(w.handlers, k) == Excess(c, threshold))
  {
    var clock, w := if run == [] then 0 else run[|run| - 1].now, Run(threshold, window, run);
    RunKeepsInv(threshold, window, run, clock);
    assert IncarnationOk(threshold, window, w.incarnations, w.handlers, k, clock);
    RaisedIsCounters(Run(threshold, window, run).handlers, k);
  }
}
