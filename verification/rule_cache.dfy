/** Loading rules from the database through the cache into the engine, with edit handlers and loads
    interleaved statement by statement (siem-server/rules/rules_engine.go, web_server/handles.go). */
module RuleCache {
  import opened Wrappers
  import opened Rules
  import opened RulesEngine

  /** Where a handler stands between its rule edit (or bare load) and the end of LoadRules. */
  datatype Loader = Deleting | Getting | Reading | Setting(list: seq<Rule>) | Applying(list: seq<Rule>) | Finished

  /** versions: every content the rules table ever had, the current one last. */
  datatype System = System(
    versions: seq<seq<Rule>>,
    cache: Option<seq<Rule>>,
    loaders: seq<Loader>,
    engine: map<string, Rule>)

  /** Edit: a committed rule edit, whose handler then invalidates the cache. Load: LoadRules alone.
      ok tells whether the statement succeeded; for Get it includes decoding the cached text. An engine
      without a cache behaves as if Get and Set never succeeded. */
  datatype Op =
    | Edit(list: seq<Rule>)
    | Load
    | Del(i: nat, ok: bool)
    | Get(i: nat, ok: bool)
    | Read(i: nat, ok: bool)
    | Set(i: nat, ok: bool)
    | Apply(i: nat)
    | Expire

  function Current(s: System): seq<Rule>
    requires s.versions != []
  {
    s.versions[|s.versions| - 1]
  }

  predicate At(s: System, i: nat, pc: Loader -> bool) {
    i < |s.loaders| && pc(s.loaders[i])
  }

  function Moved(s: System, i: nat, pc: Loader): System
    requires i < |s.loaders|
  {
    s.(loaders := s.loaders[i := pc])
  }

  function Next(s: System, op: Op): (r: System)
    requires s.versions != []
    ensures r.versions != []
  {
    match op
    case Edit(list) => s.(versions := s.versions + [list], loaders := s.loaders + [Deleting])
    case Load => s.(loaders := s.loaders + [Getting])
    case Expire => s.(cache := None)
    case Del(i, ok) =>
      if At(s, i, (l: Loader) => l.Deleting?) then Moved(s, i, Getting).(cache := if ok then None else s.cache) else s
    case Get(i, ok) =>
      if At(s, i, (l: Loader) => l.Getting?)
      then Moved(s, i, if ok && s.cache.Some? then Applying(s.cache.value) else Reading)
      else s
    case Read(i, ok) =>
      if At(s, i, (l: Loader) => l.Reading?) then Moved(s, i, if ok then Setting(Current(s)) else Finished) else s
    case Set(i, ok) =>
      if At(s, i, (l: Loader) => l.Setting?)
      then Moved(s, i, Applying(s.loaders[i].list)).(cache := if ok then Some(s.loaders[i].list) else s.cache)
      else s
    case Apply(i) =>
      if At(s, i, (l: Loader) => l.Applying?) then Moved(s, i, Finished).(engine := Projection(s.loaders[i].list)) else s
  }

  function Run(first: seq<Rule>, ops: seq<Op>): (s: System)
    ensures s.versions != []
  {
    if ops == [] then System([first], None, [], map[])
    else Next(Run(first, ops[..|ops| - 1]), ops[|ops| - 1])
  }

  // ---------------------------------------------------------------- one version at a time

  ghost predicate LoaderOk(s: System, l: Loader) {
    match l
    case Setting(list) => list in s.versions
    case Applying(list) => list in s.versions
    case _ => true
  }

  ghost predicate SnapshotOk(s: System) {
    s.engine == map[] || exists k :: 0 <= k < |s.versions| && s.engine == Projection(s.versions[k])
  }

  ghost predicate Inv(s: System) {
    && (s.cache.Some? ==> s.cache.value in s.versions)
    && (forall i :: 0 <= i < |s.loaders| ==> LoaderOk(s, s.loaders[i]))
    && SnapshotOk(s)
  }

  lemma NextKeepsInv(s: System, op: Op)
    requires s.versions != [] && Inv(s)
    ensures Inv(Next(s, op))
  {
    var r := Next(s, op);
    assert s.versions <= r.versions;
    forall i | 0 <= i < |r.loaders| ensures LoaderOk(r, r.loaders[i]) {
      if i < |s.loaders| {
        assert LoaderOk(s, s.loaders[i]);
      }
    }
    if op.Apply? && r != s {
      assert LoaderOk(s, s.loaders[op.i]);
      var k :| 0 <= k < |s.versions| && s.versions[k] == s.loaders[op.i].list;
      assert r.engine == Projection(r.versions[k]);
    } else if s.engine != map[] {
      var k :| 0 <= k < |s.versions| && s.engine == Projection(s.versions[k]);
      assert r.engine == Projection(r.versions[k]);
    }
  }

  /** Under every interleaving and every failure, the engine evaluates nothing, or the enabled and
      compilable rules of one single version of the table: never a mix. */
  lemma {:induction false} SnapshotConsistency(first: seq<Rule>, ops: seq<Op>)
    ensures Inv(Run(first, ops))
  {
    if ops != [] {
      SnapshotConsistency(first, ops[..|ops| - 1]);
      NextKeepsInv(Run(first, ops[..|ops| - 1]), ops[|ops| - 1]);
    }
  }

  // ---------------------------------------------------------------- which version it is

  /** Where the lists come from: the position in the run of the database read behind the cached list,
      behind the list each loader has in hand, and behind the engine's rules. */
  datatype Origins = Origins(cache: Option<nat>, loaders: seq<Option<nat>>, engine: Option<nat>)

  function NextOrigins(s: System, o: Origins, op: Op, position: nat): (r: Origins)
    requires s.versions != [] && |o.loaders| == |s.loaders|
    ensures |r.loaders| == |Next(s, op).loaders|
  {
    match op
    case Edit(_) => o.(loaders := o.loaders + [None])
    case Load => o.(loaders := o.loaders + [None])
    case Expire => o.(cache := None)
    case Del(i, ok) => if At(s, i, (l: Loader) => l.Deleting?) && ok then o.(cache := None) else o
    case Get(i, ok) =>
      if At(s, i, (l: Loader) => l.Getting?) && ok && o.cache.Some? then o.(loaders := o.loaders[i := o.cache]) else o
    case Read(i, ok) =>
      if At(s, i, (l: Loader) => l.Reading?) && ok then o.(loaders := o.loaders[i := Some(position)]) else o
    case Set(i, ok) => if At(s, i, (l: Loader) => l.Setting?) && ok then o.(cache := o.loaders[i]) else o
    case Apply(i) => if At(s, i, (l: Loader) => l.Applying?) then o.(engine := o.loaders[i]) else o
  }

  function OriginsOf(first: seq<Rule>, ops: seq<Op>): (o: Origins)
    ensures |o.loaders| == |Run(first, ops).loaders|
  {
    if ops == [] then Origins(None, [], None)
    else
      var init := ops[..|ops| - 1];
      NextOrigins(Run(first, init), OriginsOf(first, init), ops[|ops| - 1], |init|)
  }

  /** The content of the table at a position of the run. */
  function VersionAt(first: seq<Rule>, ops: seq<Op>, position: nat): seq<Rule>
    requires position <= |ops|
  {
    Current(Run(first, ops[..position]))
  }

  /** The list was read from the table at this position of the run. */
  ghost predicate ReadAt(first: seq<Rule>, ops: seq<Op>, origin: Option<nat>, list: seq<Rule>) {
    && origin.Some? && origin.value < |ops|
    && ops[origin.value].Read? && ops[origin.value].ok
    && list == VersionAt(first, ops, origin.value)
  }

  ghost predicate EngineFrom(first: seq<Rule>, ops: seq<Op>, origin: Option<nat>, engine: map<string, Rule>) {
    if origin.None? then engine == map[]
    else exists list :: ReadAt(first, ops, origin, list) && engine == Projection(list)
  }

  ghost predicate LoaderFrom(first: seq<Rule>, ops: seq<Op>, origin: Option<nat>, l: Loader) {
    match l
    case Setting(list) => ReadAt(first, ops, origin, list)
    case Applying(list) => ReadAt(first, ops, origin, list)
    case _ => true
  }

  ghost predicate Traced(first: seq<Rule>, ops: seq<Op>, s: System, o: Origins) {
    && |o.loaders| == |s.loaders|
    && (s.cache.Some? <==> o.cache.Some?)
    && (s.cache.Some? ==> ReadAt(first, ops, o.cache, s.cache.value))
    && (forall i :: 0 <= i < |s.loaders| ==> LoaderFrom(first, ops, o.loaders[i], s.loaders[i]))
    && EngineFrom(first, ops, o.engine, s.engine)
  }

  lemma ReadAtLater(first: seq<Rule>, ops: seq<Op>, op: Op, origin: Option<nat>, list: seq<Rule>)
    requires ReadAt(first, ops, origin, list)
    ensures ReadAt(first, ops + [op], origin, list)
  {
    assert (ops + [op])[..origin.value] == ops[..origin.value];
  }

  lemma TracedLater(first: seq<Rule>, ops: seq<Op>, op: Op, s: System, o: Origins)
    requires Traced(first, ops, s, o)
    ensures Traced(first, ops + [op], s, o)
  {
    hide ReadAt, Projection;
    if s.cache.Some? {
      ReadAtLater(first, ops, op, o.cache, s.cache.value);
    }
    forall i | 0 <= i < |s.loaders| ensures LoaderFrom(first, ops + [op], o.loaders[i], s.loaders[i]) {
      assert LoaderFrom(first, ops, o.loaders[i], s.loaders[i]);
      if s.loaders[i].Setting? || s.loaders[i].Applying? {
        ReadAtLater(first, ops, op, o.loaders[i], s.loaders[i].list);
      }
    }
    if o.engine.Some? {
      var list :| ReadAt(first, ops, o.engine, list) && s.engine == Projection(list);
      ReadAtLater(first, ops, op, o.engine, list);
    }
  }

  /** One statement keeps lists and origins together. */
  lemma TraceStep(first: seq<Rule>, ops: seq<Op>, s: System, o: Origins)
    requires ops != [] && s == Run(first, ops[..|ops| - 1]) && Traced(first, ops, s, o)
    ensures Traced(first, ops, Next(s, ops[|ops| - 1]), NextOrigins(s, o, ops[|ops| - 1], |ops| - 1))
  {
    hide Projection;
    var op := ops[|ops| - 1];
    if op.Read? {
      assert op.ok ==> ReadAt(first, ops, Some(|ops| - 1), Current(s));
    }
    hide ReadAt;
    var s', o' := Next(s, op), NextOrigins(s, o, op, |ops| - 1);
    forall i | 0 <= i < |s'.loaders| ensures LoaderFrom(first, ops, o'.loaders[i], s'.loaders[i]) {
      if i < |s.loaders| {
        assert LoaderFrom(first, ops, o.loaders[i], s.loaders[i]);
      }
    }
    if op.Set? && op.i < |s.loaders| {
      assert LoaderFrom(first, ops, o.loaders[op.i], s.loaders[op.i]);
    }
    if op.Apply? && op.i < |s.loaders| && s.loaders[op.i].Applying? {
      assert LoaderFrom(first, ops, o.loaders[op.i], s.loaders[op.i]);
      ReadAtSome(first, ops, o.loaders[op.i], s.loaders[op.i].list);
    }
  }

  lemma ReadAtSome(first: seq<Rule>, ops: seq<Op>, origin: Option<nat>, list: seq<Rule>)
    requires ReadAt(first, ops, origin, list)
    ensures origin.Some?
  {
  }

  lemma {:induction false} RunTraced(first: seq<Rule>, ops: seq<Op>)
    ensures Traced(first, ops, Run(first, ops), OriginsOf(first, ops))
  {
    hide Projection, ReadAt;
    if ops != [] {
      var init, op := ops[..|ops| - 1], ops[|ops| - 1];
      hide Traced;
      RunTraced(first, init);
      TracedLater(first, init, op, Run(first, init), OriginsOf(first, init));
      assert init + [op] == ops;
      TraceStep(first, ops, Run(first, init), OriginsOf(first, init));
    }
  }

  /** No rule list was applied so far. */
  predicate NeverApplied(first: seq<Rule>, ops: seq<Op>) {
    ops == [] ||
    var init, op := ops[..|ops| - 1], ops[|ops| - 1];
    NeverApplied(first, init) && !(op.Apply? && At(Run(first, init), op.i, (l: Loader) => l.Applying?))
  }

  lemma {:induction false} OriginOnceApplied(first: seq<Rule>, ops: seq<Op>)
    ensures OriginsOf(first, ops).engine.None? <==> NeverApplied(first, ops)
  {
    hide Projection;
    if ops != [] {
      var init, op := ops[..|ops| - 1], ops[|ops| - 1];
      OriginOnceApplied(first, init);
      RunTraced(first, init);
      if op.Apply? && op.i < |Run(first, init).loaders| {
        assert LoaderFrom(first, init, OriginsOf(first, init).loaders[op.i], Run(first, init).loaders[op.i]);
      }
    }
  }

  ghost predicate NoEditAfter(ops: seq<Op>, position: nat) {
    forall j :: position < j < |ops| ==> !ops[j].Edit?
  }

  /** What the last edit after a position of the run wrote, if there was one. */
  function LastEdit(ops: seq<Op>, position: nat): Option<seq<Rule>> {
    if |ops| <= position + 1 then None
    else if ops[|ops| - 1].Edit? then Some(ops[|ops| - 1].list)
    else LastEdit(ops[..|ops| - 1], position)
  }

  /** The table holds what the last edit wrote, or what it held before. */
  lemma {:induction false} LastEditStays(first: seq<Rule>, ops: seq<Op>, position: nat)
    requires position < |ops| && !ops[position].Edit?
    ensures LastEdit(ops, position).None? <==> NoEditAfter(ops, position)
    ensures var edit := LastEdit(ops, position);
            Current(Run(first, ops)) == if edit.None? then VersionAt(first, ops, position) else edit.value
  {
    hide NoEditAfter;
    var n := |ops| - 1;
    var init := ops[..n];
    EditStep(Run(first, init), ops[n]);
    NoEditStep(ops, position);
    if position < n {
      LastEditStays(first, init, position);
      assert init[..position] == ops[..position];
    }
  }

  lemma NoEditStep(ops: seq<Op>, position: nat)
    requires position < |ops|
    ensures position < |ops| - 1 ==>
              (NoEditAfter(ops, position) <==> NoEditAfter(ops[..|ops| - 1], position) && !ops[|ops| - 1].Edit?)
    ensures position == |ops| - 1 ==> NoEditAfter(ops, position)
  {
    if position < |ops| - 1 && NoEditAfter(ops[..|ops| - 1], position) && !ops[|ops| - 1].Edit? {
      forall j | position < j < |ops| ensures !ops[j].Edit? {
        assert j < |ops| - 1 ==> ops[..|ops| - 1][j] == ops[j];
      }
    }
  }

  lemma EditStep(s: System, op: Op)
    requires s.versions != []
    ensures Current(Next(s, op)) == if op.Edit? then op.list else Current(s)
  {
  }

  /** Under every interleaving and every failure: before any Apply the engine holds nothing; afterwards it
      holds the version of the table at the database read behind the last Apply, possibly through the
      cache. So it is current iff no edit came after that read, or the last one that did wrote the
      same enabled and compilable rules again. */
  lemma CurrentExactly(first: seq<Rule>, ops: seq<Op>)
    ensures var s, origin := Run(first, ops), OriginsOf(first, ops).engine;
            && (origin.None? <==> NeverApplied(first, ops))
            && (origin.None? ==> s.engine == map[])
            && (origin.Some? ==>
                 && origin.value < |ops| && ops[origin.value].Read? && ops[origin.value].ok
                 && var read, edit := VersionAt(first, ops, origin.value), LastEdit(ops, origin.value);
                 && s.engine == Projection(read)
                 && (edit.None? <==> NoEditAfter(ops, origin.value))
                 && (s.engine == Projection(Current(s)) <==> edit.None? || Projection(edit.value) == Projection(read)))
  {
    hide Projection, Run, OriginsOf, NeverApplied, NoEditAfter, LastEdit;
    OriginOnceApplied(first, ops);
    RunTraced(first, ops);
    var origin := OriginsOf(first, ops).engine;
    if origin.Some? {
      LastEditStays(first, ops, origin.value);
    }
  }

  // ---------------------------------------------------------------- serial handlers see the current version

  ghost predicate Quiescent(s: System) {
    forall i :: 0 <= i < |s.loaders| ==> s.loaders[i].Finished?
  }

  /** Handlers start only when the previous one has finished; Del and the database read succeed. */
  ghost predicate SerialOp(s: System, op: Op) {
    && (op.Edit? || op.Load? ==> Quiescent(s))
    && (op.Del? || op.Read? ==> op.ok)
  }

  ghost predicate Serial(first: seq<Rule>, ops: seq<Op>) {
    forall n :: 0 <= n < |ops| ==> SerialOp(Run(first, ops[..n]), ops[n])
  }

  /** The list comes from a read with no edit since. */
  ghost predicate Recent(ops: seq<Op>, origin: Option<nat>) {
    origin.Some? && NoEditAfter(ops, origin.value)
  }

  /** Only the last loader is under way, and whatever it or the cache holds is recent. */
  ghost predicate SerialInv(ops: seq<Op>, s: System, o: Origins) {
    var n := |s.loaders| - 1;
    && |o.loaders| == |s.loaders|
    && (forall i :: 0 <= i < n ==> s.loaders[i].Finished?)
    && (o.cache.Some? && (n >= 0 ==> !s.loaders[n].Deleting?) ==> Recent(ops, o.cache))
    && (n >= 0 && (s.loaders[n].Setting? || s.loaders[n].Applying?) ==> Recent(ops, o.loaders[n]))
    && (n >= 0 && s.loaders[n].Finished? ==> Recent(ops, o.engine))
  }

  lemma RecentLater(ops: seq<Op>, op: Op, origin: Option<nat>)
    requires !op.Edit?
    ensures Recent(ops, origin) ==> Recent(ops + [op], origin)
    ensures Recent(ops + [op], Some(|ops|))
  {
  }

  lemma SerialNext(ops: seq<Op>, op: Op, s: System, o: Origins)
    requires s.versions != [] && SerialInv(ops, s, o) && SerialOp(s, op)
    requires s.cache.Some? <==> o.cache.Some?
    ensures SerialInv(ops + [op], Next(s, op), NextOrigins(s, o, op, |ops|))
  {
    hide Recent, Projection;
    if !op.Edit? {
      RecentLater(ops, op, o.cache);
      RecentLater(ops, op, o.engine);
      if s.loaders != [] {
        RecentLater(ops, op, o.loaders[|s.loaders| - 1]);
      }
    }
  }

  lemma SerialShorter(first: seq<Rule>, ops: seq<Op>)
    requires Serial(first, ops) && ops != []
    ensures Serial(first, ops[..|ops| - 1]) && SerialOp(Run(first, ops[..|ops| - 1]), ops[|ops| - 1])
  {
    hide Run, SerialOp;
    var init := ops[..|ops| - 1];
    forall n | 0 <= n < |init| ensures SerialOp(Run(first, init[..n]), init[n]) {
      assert init[..n] == ops[..n];
      assert SerialOp(Run(first, ops[..n]), ops[n]);
    }
  }

  lemma SerialStart(first: seq<Rule>)
    ensures SerialInv([], Run(first, []), OriginsOf(first, []))
  {
  }

  lemma {:induction false} SerialRun(first: seq<Rule>, ops: seq<Op>)
    requires Serial(first, ops)
    ensures SerialInv(ops, Run(first, ops), OriginsOf(first, ops))
  {
    hide Serial, SerialOp, SerialInv, Next, NextOrigins, ReadAt, EngineFrom, LoaderFrom;
    if ops == [] {
      SerialStart(first);
    } else {
      var init, op := ops[..|ops| - 1], ops[|ops| - 1];
      SerialShorter(first, ops);
      SerialRun(first, init);
      RunTraced(first, init);
      SerialNext(init, op, Run(first, init), OriginsOf(first, init));
      assert init + [op] == ops;
    }
  }

  /** With serial handlers whose Del and database read succeed, the engine holds the current version
      whenever no handler is under way, whatever the cache loses or refuses in between: the read behind
      the last Apply has no edit after it. */
  lemma SerialIsCurrent(first: seq<Rule>, ops: seq<Op>)
    requires Serial(first, ops)
    ensures var s := Run(first, ops); Quiescent(s) && s.loaders != [] ==> s.engine == Projection(Current(s))
  {
    hide Projection, Run, OriginsOf;
    SerialRun(first, ops);
    CurrentExactly(first, ops);
  }

  // ---------------------------------------------------------------- one edit, and its failures

  function After(s: System, ops: seq<Op>): System
    requires s.versions != []
    ensures After(s, ops).versions != []
    decreases |ops|
  {
    if ops == [] then s else After(Next(s, ops[0]), ops[1..])
  }

  /** The statements of the edit handler numbered n, with the success of each. */
  function EditHandler(list: seq<Rule>, n: nat, delOk: bool, getOk: bool, readOk: bool, setOk: bool): seq<Op> {
    [Edit(list), Del(n, delOk), Get(n, getOk)] + [Read(n, readOk), Set(n, setOk), Apply(n)]
  }

  /** Up to the Get: the handler has the stale cached list in hand, or will read the table. */
  lemma EditUpToGet(s: System, list: seq<Rule>, n: nat, delOk: bool, getOk: bool)
    requires s.versions != [] && n == |s.loaders|
    ensures var hit := !delOk && getOk && s.cache.Some?;
            After(s, [Edit(list), Del(n, delOk), Get(n, getOk)]) ==
              System(s.versions + [list], if delOk then None else s.cache,
                     s.loaders + [if hit then Applying(s.cache.value) else Reading], s.engine)
  {
    hide Projection;
    ThreeSteps(s, [Edit(list), Del(n, delOk), Get(n, getOk)]);
    assert Next(s, Edit(list)) == s.(versions := s.versions + [list], loaders := s.loaders + [Deleting]);
  }

  /** From there to the end. */
  lemma LoadFromGet(s: System, n: nat, readOk: bool, setOk: bool)
    requires s.versions != [] && n + 1 == |s.loaders| && (s.loaders[n].Applying? || s.loaders[n].Reading?)
    ensures After(s, [Read(n, readOk), Set(n, setOk), Apply(n)]) ==
              if s.loaders[n].Applying? then s.(loaders := s.loaders[n := Finished], engine := Projection(s.loaders[n].list))
              else if readOk then System(s.versions, if setOk then Some(Current(s)) else s.cache,
                                         s.loaders[n := Finished], Projection(Current(s)))
              else s.(loaders := s.loaders[n := Finished])
  {
    hide Projection;
    var ops := [Read(n, readOk), Set(n, setOk), Apply(n)];
    ThreeSteps(s, ops);
    if s.loaders[n].Reading? && readOk {
      assert Next(s, ops[0]) == s.(loaders := s.loaders[n := Setting(Current(s))]);
    } else {
      assert s.loaders[n].Applying? ==> Next(s, ops[0]) == s;
    }
  }

  lemma ThreeSteps(s: System, ops: seq<Op>)
    requires s.versions != [] && |ops| == 3
    ensures After(s, ops) == Next(Next(Next(s, ops[0]), ops[1]), ops[2])
  {
    hide Next;
    var s1 := Next(s, ops[0]);
    var s2 := Next(s1, ops[1]);
    assert ops[1..][1..] == [ops[2]] && [ops[2]][1..] == [];
    assert After(s, ops) == After(s1, ops[1..]) == After(s2, [ops[2]]) == After(Next(s2, ops[2]), []);
  }

  lemma {:induction false} AfterSplit(s: System, a: seq<Op>, b: seq<Op>)
    requires s.versions != []
    ensures After(s, a + b) == After(After(s, a), b)
    decreases |a|
  {
    if a == [] {
      assert a + b == b;
    } else {
      assert (a + b)[1..] == a[1..] + b;
      AfterSplit(Next(s, a[0]), a[1..], b);
    }
  }

  /** An edit handler that starts when engine and cache are current makes its edit effective exactly when
      the database read succeeds and the failed Del does not leave a cached list for Get to find; or when
      the edit changes nothing the engine uses. A failing Set never matters. */
  lemma EditTakesEffectExactly(s: System, list: seq<Rule>, delOk: bool, getOk: bool, readOk: bool, setOk: bool)
    requires s.versions != [] && s.engine == Projection(Current(s)) && (s.cache.Some? ==> s.cache.value == Current(s))
    ensures var stale := !delOk && getOk && s.cache.Some?;
            After(s, EditHandler(list, |s.loaders|, delOk, getOk, readOk, setOk)).engine == Projection(list) <==>
              (readOk && !stale) || Projection(list) == Projection(Current(s))
  {
    hide Projection;
    var n := |s.loaders|;
    AfterSplit(s, [Edit(list), Del(n, delOk), Get(n, getOk)], [Read(n, readOk), Set(n, setOk), Apply(n)]);
    EditUpToGet(s, list, n, delOk, getOk);
    LoadFromGet(After(s, [Edit(list), Del(n, delOk), Get(n, getOk)]), n, readOk, setOk);
  }

  /** A bare load brings the cached list into force when the cache yields one, else the current table when
      the database read succeeds, which it then caches when it can, else it leaves engine and cache alone. */
  lemma LoadDoes(s: System, getOk: bool, readOk: bool, setOk: bool)
    requires s.versions != []
    ensures var n := |s.loaders|;
            var s' := After(s, [Load, Get(n, getOk)] + [Read(n, readOk), Set(n, setOk), Apply(n)]);
            && s'.engine == (if getOk && s.cache.Some? then Projection(s.cache.value)
                             else if readOk then Projection(Current(s)) else s.engine)
            && s'.cache == (if !(getOk && s.cache.Some?) && readOk && setOk then Some(Current(s)) else s.cache)
            && s'.versions == s.versions && s'.loaders == s.loaders + [Finished]
  {
    hide Projection, Next, After;
    var n := |s.loaders|;
    AfterSplit(s, [Load, Get(n, getOk)], [Read(n, readOk), Set(n, setOk), Apply(n)]);
    LoadUpToGet(s, n, getOk);
    LoadFromGet(After(s, [Load, Get(n, getOk)]), n, readOk, setOk);
  }

  /** Once the cache entry has expired it is the database that decides. */
  lemma LoadAfterExpiry(s: System, getOk: bool, setOk: bool)
    requires s.versions != []
    ensures var n, s1 := |s.loaders|, Next(s, Expire);
            After(s1, [Load, Get(n, getOk)] + [Read(n, true), Set(n, setOk), Apply(n)]).engine == Projection(Current(s))
  {
    hide Projection, After;
    LoadDoes(Next(s, Expire), getOk, true, setOk);
  }

  lemma LoadUpToGet(s: System, n: nat, getOk: bool)
    requires s.versions != [] && n == |s.loaders|
    ensures After(s, [Load, Get(n, getOk)])
              == s.(loaders := s.loaders + [if getOk && s.cache.Some? then Applying(s.cache.value) else Reading])
  {
    hide Projection;
    var load := [Load, Get(n, getOk)];
    assert load[1..] == [load[1]] && [load[1]][1..] == [];
    assert After(s, load) == After(Next(s, Load), [load[1]]) == After(Next(Next(s, Load), load[1]), []);
  }

  // ---------------------------------------------------------------- why serial

  /** Two edit handlers overlap: the first reads the table before the second edit and finishes last. */
  function Overlap(a: seq<Rule>, b: seq<Rule>): seq<Op> {
    [Edit(a), Del(0, true), Get(0, true), Read(0, true)]
      + [Edit(b), Del(1, true), Get(1, true), Read(1, true), Set(1, true), Apply(1)]
      + [Set(0, true), Apply(0)]
  }

  lemma {:induction false} RunAfter(first: seq<Rule>, done: seq<Op>, ops: seq<Op>)
    ensures Run(first, done + ops) == After(Run(first, done), ops)
    decreases |ops|
  {
    hide Next;
    if ops == [] {
      assert done + ops == done;
    } else {
      assert (done + [ops[0]])[..|done|] == done;
      RunAfter(first, done + [ops[0]], ops[1..]);
      assert done + ops == done + [ops[0]] + ops[1..];
    }
  }

  /** Without serial handlers the engine can stay on an old version, and so can the cache, although
      every statement succeeded and every handler has finished. */
  lemma OverlapLeavesStaleRules(first: seq<Rule>, a: seq<Rule>, b: seq<Rule>)
    ensures var s := Run(first, Overlap(a, b));
            && Quiescent(s) && Current(s) == b && s.engine == Projection(a) && s.cache == Some(a)
            && (Projection(a) != Projection(b) ==> s.engine != Projection(Current(s)))
  {
    hide Projection;
    var s0 := Run(first, []);
    var s4 := System([first, a], None, [Setting(a)], map[]);
    var p1 := [Edit(a), Del(0, true), Get(0, true), Read(0, true)];
    var p2 := [Edit(b), Del(1, true), Get(1, true), Read(1, true), Set(1, true), Apply(1)];
    var p3 := [Set(0, true), Apply(0)];
    FirstHandler(first, a, p1);
    SecondHandler(first, a, b, p2);
    RunAfter(first, [], p1);
    RunAfter(first, p1, p2);
    RunAfter(first, p1 + p2, p3);
    assert [] + p1 == p1;
    assert p1 + p2 + p3 == Overlap(a, b);
    var s10 := System([first, a, b], Some(b), [Setting(a), Finished], Projection(b));
    var s11 := Next(s10, p3[0]);
    assert s11 == System([first, a, b], Some(a), [Applying(a), Finished], Projection(b));
    assert p3[1..] == [Apply(0)];
    assert After(s10, p3) == After(s11, [Apply(0)]) == After(Next(s11, Apply(0)), []);
  }

  lemma FirstHandler(first: seq<Rule>, a: seq<Rule>, p: seq<Op>)
    requires p == [Edit(a), Del(0, true), Get(0, true), Read(0, true)]
    ensures After(Run(first, []), p) == System([first, a], None, [Setting(a)], map[])
  {
    var s0 := Run(first, []);
    var s1 := Next(s0, p[0]);
    assert s1 == System([first, a], None, [Deleting], map[]);
    var s2 := Next(s1, p[1]);
    var s3 := Next(s2, p[2]);
    var s4 := Next(s3, p[3]);
    assert After(s0, p) == After(s1, p[1..]) && p[1..][1..] == p[2..] && p[2..][1..] == p[3..] && p[3..][1..] == [];
    assert After(s1, p[1..]) == After(s2, p[2..]) == After(s3, p[3..]) == After(s4, []);
  }

  lemma SecondHandler(first: seq<Rule>, a: seq<Rule>, b: seq<Rule>, p: seq<Op>)
    requires p == [Edit(b), Del(1, true), Get(1, true), Read(1, true), Set(1, true), Apply(1)]
    ensures After(System([first, a], None, [Setting(a)], map[]), p)
              == System([first, a, b], Some(b), [Setting(a), Finished], Projection(b))
  {
    var s0 := System([first, a], None, [Setting(a)], map[]);
    var s1 := Next(s0, p[0]);
    assert s1 == System([first, a, b], None, [Setting(a), Deleting], map[]);
    var s2 := Next(s1, p[1]);
    var s3 := Next(s2, p[2]);
    var s4 := Next(s3, p[3]);
    var s5 := Next(s4, p[4]);
    var s6 := Next(s5, p[5]);
    assert p[1..][1..] == p[2..] && p[2..][1..] == p[3..] && p[3..][1..] == p[4..] && p[4..][1..] == p[5..] && p[5..][1..] == [];
    assert After(s0, p) == After(s1, p[1..]) == After(s2, p[2..]) == After(s3, p[3..]);
    assert After(s3, p[3..]) == After(s4, p[4..]) == After(s5, p[5..]) == After(s6, []);
  }
}
