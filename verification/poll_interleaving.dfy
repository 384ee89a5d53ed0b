/** Polls of the command queue that overlap: the SELECT of a poll and the UPDATE that marks what it handed
    out are separate statements, and commands arrive in between (siem-server/agent/agent_storage.go). */
module PollInterleaving {
  import opened Sequences
  import opened Sorting
  import opened CommandQueues

  datatype Stage = Selected | Marked | Unmarked

  datatype Poll = Poll(answer: seq<Command>, stage: Stage)

  datatype World = World(table: seq<Command>, polls: seq<Poll>)

  datatype Op = Add(c: Command) | Select(host: string) | Mark(poll: nat, ok: bool)

  /** A new command is pending and has an id that was never in use. */
  function Added(table: seq<Command>, op: Op): seq<Command> {
    if op.Add? && op.c.id !in Ids(table) then table + [op.c.(status := Pending)] else table
  }

  function Answer(w: World, host: string): seq<Command> {
    Prefix(Queue(host, w.table), BATCH)
  }

  function Next(w: World, op: Op): World {
    match op
    case Add(_) => w.(table := Added(w.table, op))
    case Select(host) => w.(polls := w.polls + [Poll(Answer(w, host), Selected)])
    case Mark(i, ok) =>
      if i < |w.polls| && w.polls[i].stage.Selected?
      then World(if ok then MarkSent(w.table, Ids(w.polls[i].answer)) else w.table,
                 w.polls[i := w.polls[i].(stage := if ok then Marked else Unmarked)])
      else w
  }

  function Run(first: seq<Command>, ops: seq<Op>): World {
    if ops == [] then World(first, []) else Next(Run(first, ops[..|ops| - 1]), ops[|ops| - 1])
  }

  /** The commands there would be if no poll had marked any. */
  function Commands(first: seq<Command>, ops: seq<Op>): seq<Command> {
    if ops == [] then first else Added(Commands(first, ops[..|ops| - 1]), ops[|ops| - 1])
  }

  /** The ids that some poll handed out and marked. */
  function MarkedIds(polls: seq<Poll>): set<int> {
    set j, id | 0 <= j < |polls| && polls[j].stage.Marked? && id in Ids(polls[j].answer) :: id
  }

  // ---------------------------------------------------------------- the table

  lemma MarkTwice(table: seq<Command>, a: set<int>, b: set<int>)
    ensures MarkSent(MarkSent(table, a), b) == MarkSent(table, a + b)
  {
  }

  lemma MarkSnoc(table: seq<Command>, c: Command, ids: set<int>)
    requires c.id !in ids
    ensures MarkSent(table + [c], ids) == MarkSent(table, ids) + [c]
  {
  }

  lemma IdsMarked(table: seq<Command>, ids: set<int>)
    ensures Ids(MarkSent(table, ids)) == Ids(table)
  {
    var marked := MarkSent(table, ids);
    forall x ensures x in Ids(marked) <==> x in Ids(table) {
      if x in Ids(marked) {
        var i :| 0 <= i < |marked| && marked[i].id == x;
        assert table[i].id == x;
      }
      if x in Ids(table) {
        var i :| 0 <= i < |table| && table[i].id == x;
        assert marked[i].id == x;
      }
    }
  }

  lemma AnswerIds(w: World, host: string)
    requires UniqueIds(w.table)
    ensures Ids(Answer(w, host)) <= Ids(w.table)
  {
    QueueUnique(host, w.table);
    forall i | 0 <= i < |Answer(w, host)| ensures Answer(w, host)[i].id in Ids(w.table) {
      assert Answer(w, host)[i] == Queue(host, w.table)[i];
      assert Queue(host, w.table)[i] in w.table;
    }
  }

  lemma MarkedIdsSelect(polls: seq<Poll>, answer: seq<Command>)
    ensures MarkedIds(polls + [Poll(answer, Selected)]) == MarkedIds(polls)
  {
    var longer := polls + [Poll(answer, Selected)];
    assert forall j :: 0 <= j < |polls| ==> longer[j] == polls[j];
  }

  lemma MarkedIdsMark(polls: seq<Poll>, i: nat, ok: bool)
    requires i < |polls| && polls[i].stage.Selected?
    ensures MarkedIds(polls[i := polls[i].(stage := if ok then Marked else Unmarked)])
              == MarkedIds(polls) + if ok then Ids(polls[i].answer) else {}
  {
    var next := polls[i := polls[i].(stage := if ok then Marked else Unmarked)];
    assert forall j :: 0 <= j < |polls| && j != i ==> next[j] == polls[j];
    assert ok ==> next[i].stage.Marked? && next[i].answer == polls[i].answer;
  }

  /** The table is what it would be without marks, with the marked commands sent. */
  ghost predicate Inv(w: World, commands: seq<Command>) {
    && UniqueIds(commands)
    && w.table == MarkSent(commands, MarkedIds(w.polls))
    && forall j :: 0 <= j < |w.polls| ==> Ids(w.polls[j].answer) <= Ids(w.table)
  }

  lemma AddKeepsInv(w: World, commands: seq<Command>, op: Op)
    requires Inv(w, commands) && op.Add?
    ensures Inv(Next(w, op), Added(commands, op))
  {
    hide Ids, MarkSent, MarkedIds;
    IdsMarked(commands, MarkedIds(w.polls));
    if op.c.id !in Ids(commands) {
      var c := op.c.(status := Pending);
      MarkedIdsIn(w);
      MarkSnoc(commands, c, MarkedIds(w.polls));
      IdsGrow(commands, c);
      IdsGrow(w.table, c);
    }
  }

  lemma IdsGrow(table: seq<Command>, c: Command)
    ensures Ids(table + [c]) == Ids(table) + {c.id}
    ensures UniqueIds(table) && c.id !in Ids(table) ==> UniqueIds(table + [c])
  {
    IdsSnoc(table + [c], |table|);
    assert (table + [c])[..|table|] == table && (table + [c])[..|table| + 1] == table + [c];
    assert forall i :: 0 <= i < |table| ==> table[i].id in Ids(table);
  }

  lemma MarkedIdsIn(w: World)
    requires forall j :: 0 <= j < |w.polls| ==> Ids(w.polls[j].answer) <= Ids(w.table)
    ensures MarkedIds(w.polls) <= Ids(w.table)
  {
  }

  lemma NextKeepsInv(w: World, commands: seq<Command>, op: Op)
    requires Inv(w, commands)
    ensures Inv(Next(w, op), Added(commands, op))
  {
    hide Ids, MarkSent, MarkedIds;
    match op
    case Add(_) => AddKeepsInv(w, commands, op);
    case Select(host) =>
      MarkedIdsSelect(w.polls, Answer(w, host));
      UniqueMarked(commands, MarkedIds(w.polls));
      AnswerIds(w, host);
    case Mark(i, ok) =>
      if i < |w.polls| && w.polls[i].stage.Selected? {
        MarkedIdsMark(w.polls, i, ok);
        assert !ok ==> MarkedIds(Next(w, op).polls) == MarkedIds(w.polls);
        MarkTwice(commands, MarkedIds(w.polls), Ids(w.polls[i].answer));
        IdsMarked(w.table, Ids(w.polls[i].answer));
      }
  }

  lemma UniqueMarked(table: seq<Command>, ids: set<int>)
    requires UniqueIds(table)
    ensures UniqueIds(MarkSent(table, ids))
  {
    MarkKeepsIds(table, ids);
  }

  lemma {:induction false} RunKeepsInv(first: seq<Command>, ops: seq<Op>)
    requires UniqueIds(first)
    ensures Inv(Run(first, ops), Commands(first, ops))
  {
    if ops == [] {
      assert MarkSent(first, MarkedIds([])) == first;
    } else {
      hide Next, Added, Inv;
      RunKeepsInv(first, ops[..|ops| - 1]);
      NextKeepsInv(Run(first, ops[..|ops| - 1]), Commands(first, ops[..|ops| - 1]), ops[|ops| - 1]);
    }
  }

  // ---------------------------------------------------------------- the queue

  /** However polls and arrivals interleave and whichever marks fail, the queue of a host is that of all
      commands so far without those that some poll handed out and marked, in the same order. */
  lemma QueueOfRun(first: seq<Command>, ops: seq<Op>, host: string)
    requires UniqueIds(first)
    ensures var marked := MarkedIds(Run(first, ops).polls);
            Queue(host, Run(first, ops).table) == Filter(Unsent(marked), Queue(host, Commands(first, ops)))
  {
    RunKeepsInv(first, ops);
    QueueAfterMark(host, Commands(first, ops), MarkedIds(Run(first, ops).polls));
  }

  /** No command is lost: a pending one leaves the queue exactly when a poll that handed it out has marked
      it. */
  lemma QueuedUntilMarked(first: seq<Command>, ops: seq<Op>, host: string, c: Command)
    requires UniqueIds(first)
    ensures c in Queue(host, Run(first, ops).table) <==>
              && c in Commands(first, ops) && c.hostname == host && c.status == Pending
              && c.id !in MarkedIds(Run(first, ops).polls)
  {
    hide Run, Commands, MarkedIds, Queue;
    RunKeepsInv(first, ops);
    QueueOfRun(first, ops, host);
    QueueUnique(host, Commands(first, ops));
    FilterMember(Unsent(MarkedIds(Run(first, ops).polls)), Queue(host, Commands(first, ops)), c);
  }

  /** A command that arrives with a new id is pending, and queued for its host. */
  lemma ArrivalQueued(first: seq<Command>, ops: seq<Op>, c: Command)
    requires UniqueIds(first) && forall d :: d in Run(first, ops).table ==> d.id != c.id
    ensures c.(status := Pending) in Queue(c.hostname, Run(first, ops + [Add(c)]).table)
  {
    var w := Run(first, ops);
    assert (ops + [Add(c)])[..|ops|] == ops;
    RunKeepsInv(first, ops + [Add(c)]);
    UniqueMarked(Commands(first, ops + [Add(c)]), MarkedIds(Run(first, ops + [Add(c)]).polls));
    QueueUnique(c.hostname, w.table + [c.(status := Pending)]);
  }

  // ---------------------------------------------------------------- handed out twice

  lemma {:induction false} FilterSnoc(p: Command -> bool, s: seq<Command>, x: Command)
    ensures Filter(p, s + [x]) == Filter(p, s) + if p(x) then [x] else []
  {
    if s == [] {
      assert [x][1..] == [];
    } else {
      FilterSnoc(p, s[1..], x);
      assert (s + [x])[1..] == s[1..] + [x];
    }
  }

  /** An element that passes a filter does not move back. */
  lemma {:induction false} FilterMovesForward(p: Command -> bool, s: seq<Command>, i: nat)
    requires i < |s| && p(s[i])
    ensures exists j: nat :: j <= i && j < |Filter(p, s)| && Filter(p, s)[j] == s[i]
  {
    if i == 0 {
      assert Filter(p, s)[0] == s[0];
    } else {
      FilterMovesForward(p, s[1..], i - 1);
      var j: nat :| j <= i - 1 && j < |Filter(p, s[1..])| && Filter(p, s[1..])[j] == s[i];
      assert Filter(p, s)[if p(s[0]) then j + 1 else j] == s[i];
    }
  }

  /** No command arrives for the host from position n on. */
  ghost predicate NoArrivals(ops: seq<Op>, n: nat, host: string) {
    forall j :: n <= j < |ops| && ops[j].Add? ==> ops[j].c.hostname != host
  }

  /** The operations from position n on only ever add to the marked ids. */
  lemma {:induction false} MarkedIdsGrow(first: seq<Command>, ops: seq<Op>, n: nat)
    requires n <= |ops|
    ensures MarkedIds(Run(first, ops[..n]).polls) <= MarkedIds(Run(first, ops).polls)
  {
    hide MarkedIds, Queue, MarkSent;
    if n == |ops| {
      assert ops[..n] == ops;
    } else {
      var init, op := ops[..|ops| - 1], ops[|ops| - 1];
      assert init[..n] == ops[..n];
      MarkedIdsGrow(first, init, n);
      var w := Run(first, init);
      match op
      case Add(_) =>
      case Select(host) => MarkedIdsSelect(w.polls, Answer(w, host));
      case Mark(i, ok) => if i < |w.polls| && w.polls[i].stage.Selected? { MarkedIdsMark(w.polls, i, ok); }
    }
  }

  lemma {:induction false} QueueWithoutArrivals(first: seq<Command>, ops: seq<Op>, n: nat, host: string)
    requires n <= |ops| && NoArrivals(ops, n, host)
    ensures Queue(host, Commands(first, ops)) == Queue(host, Commands(first, ops[..n]))
  {
    if n == |ops| {
      assert ops[..n] == ops;
    } else {
      var init, op := ops[..|ops| - 1], ops[|ops| - 1];
      assert init[..n] == ops[..n];
      QueueWithoutArrivals(first, init, n, host);
      if op.Add? {
        var before := Commands(first, init);
        FilterSnoc(PendingFor(host), before, op.c.(status := Pending));
        assert Filter(PendingFor(host), before) + [] == Filter(PendingFor(host), before);
      }
    }
  }

  /** Between two polls of a host for which nothing arrives: what the first handed out is handed out again
      by the second iff no poll that handed it out has marked it by then. Until then a command that was
      handed out keeps coming, to any number of polls at once. */
  lemma HandedOutAgainExactly(first: seq<Command>, ops: seq<Op>, n: nat, host: string, c: Command)
    requires UniqueIds(first) && n <= |ops| && NoArrivals(ops, n, host)
    requires c in Answer(Run(first, ops[..n]), host)
    ensures c in Answer(Run(first, ops), host) <==> c.id !in MarkedIds(Run(first, ops).polls)
  {
    hide Run, Commands, MarkedIds, Queue, NoArrivals;
    var marked, marked' := MarkedIds(Run(first, ops[..n]).polls), MarkedIds(Run(first, ops).polls);
    var q, q' := Queue(host, Run(first, ops[..n]).table), Queue(host, Run(first, ops).table);
    QueueOfRun(first, ops[..n], host);
    QueueOfRun(first, ops, host);
    QueueWithoutArrivals(first, ops, n, host);
    MarkedIdsGrow(first, ops, n);
    FilterTwice(Unsent(marked), Unsent(marked'), Unsent(marked'), Queue(host, Commands(first, ops)));
    assert q' == Filter(Unsent(marked'), q);
    var i :| 0 <= i < |Answer(Run(first, ops[..n]), host)| && q[i] == c;
    if c.id in marked' {
      FilterMember(Unsent(marked'), q, c);
    } else {
      FilterMovesForward(Unsent(marked'), q, i);
      var j: nat :| j <= i && j < |q'| && q'[j] == c;
      assert Prefix(q', BATCH)[j] == c;
    }
  }

  /** So two polls that overlap hand out the same commands, although both marks succeed. */
  lemma OverlapHandsOutTwice(first: seq<Command>, host: string)
    requires UniqueIds(first)
    ensures var polls := Run(first, [Select(host), Select(host), Mark(0, true), Mark(1, true)]).polls;
            |polls| == 2 && polls[0].answer == polls[1].answer == Prefix(Queue(host, first), BATCH)
  {
    hide Queue, MarkSent;
    var ops := [Select(host), Select(host), Mark(0, true), Mark(1, true)];
    var one, two, three := [Select(host)], [Select(host), Select(host)], [Select(host), Select(host), Mark(0, true)];
    assert one[..0] == [] && two[..1] == one && three[..2] == two && ops[..3] == three;
    assert Run(first, ops) == Next(Run(first, three), Mark(1, true));
    assert Run(first, three) == Next(Run(first, two), Mark(0, true));
    assert Run(first, two) == Next(Run(first, one), Select(host));
    assert Run(first, one) == Next(Run(first, []), Select(host));
  }

  /** A poll that is not interrupted does what the method GetPendingCommandsForHost does. */
  lemma UninterruptedIsPoll(w: World, host: string, ok: bool)
    ensures var w' := Next(Next(w, Select(host)), Mark(|w.polls|, ok));
            && w'.polls[|w.polls|].answer == Prefix(Queue(host, w.table), BATCH)
            && w'.table == if ok then MarkSent(w.table, Ids(w'.polls[|w.polls|].answer)) else w.table
  {
  }
}
