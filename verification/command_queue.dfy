/** The per-host command queue (siem-server/agent/agent_storage.go). */
module CommandQueues {
  import opened Clock
  import opened Sequences
  import opened Sorting

  datatype Priority = Low | Medium | High | Critical

  datatype Status = Pending | Sent | InProgress | Success | Failed | Cancelled

  datatype Command = Command(id: int, hostname: string, priority: Priority, status: Status, createdAt: Time)

  const BATCH := 10

  /** The word that the priority column stores. */
  function Word(p: Priority): string {
    match p
    case Low => "low"
    case Medium => "medium"
    case High => "high"
    case Critical => "critical"
  }

  /** The order of words: by the first letter in which they differ, a proper prefix first. */
  predicate Before(a: string, b: string) {
    b != [] && (a == [] || a[0] < b[0] || (a[0] == b[0] && Before(a[1..], b[1..])))
  }

  /** The place of a priority in the order of the stored words: critical, high, low, medium. */
  function TextRank(p: Priority): int {
    match p
    case Critical => 0
    case High => 1
    case Low => 2
    case Medium => 3
  }

  lemma {:induction false} NotBeforeItself(a: string)
    ensures !Before(a, a)
  {
    if a != [] {
      NotBeforeItself(a[1..]);
    }
  }

  lemma RankOrdersWords(p: Priority, q: Priority)
    ensures TextRank(p) < TextRank(q) <==> Before(Word(p), Word(q))
    ensures Word(p) == Word(q) <==> p == q
  {
    NotBeforeItself(Word(p));
  }

  /** ORDER BY priority DESC, created_at ASC, with ids breaking the remaining ties. */
  function QueueOrder(c: Command): Key {
    Key(-TextRank(c.priority), c.createdAt, c.id)
  }

  function PendingFor(host: string): Command -> bool {
    (c: Command) => c.hostname == host && c.status == Pending
  }

  /** The pending commands of a host, in the order of the query. */
  function Queue(host: string, table: seq<Command>): seq<Command> {
    Sort(QueueOrder, Filter(PendingFor(host), table))
  }

  function Ids(cmds: seq<Command>): set<int> {
    set i | 0 <= i < |cmds| :: cmds[i].id
  }

  /** A command with this id was handed out. */
  ghost predicate InPoll(polled: seq<Command>, id: int) {
    exists k :: 0 <= k < |polled| && polled[k].id == id
  }

  function Marked(c: Command, ids: set<int>): Command {
    if c.id in ids then c.(status := Sent) else c
  }

  /** UPDATE agent_commands SET status = 'sent' WHERE id = ANY(ids). */
  function MarkSent(table: seq<Command>, ids: set<int>): seq<Command> {
    seq(|table|, i requires 0 <= i < |table| => Marked(table[i], ids))
  }

  ghost predicate UniqueIds(s: seq<Command>) {
    forall i, j :: 0 <= i < j < |s| ==> s[i].id != s[j].id
  }

  lemma IdsSnoc(cmds: seq<Command>, i: nat)
    requires i < |cmds|
    ensures Ids(cmds[..i + 1]) == Ids(cmds[..i]) + {cmds[i].id}
  {
    var s, t := cmds[..i + 1], cmds[..i];
    assert s[i] == cmds[i];
    forall x ensures x in Ids(s) <==> x in Ids(t) + {cmds[i].id} {
      if x in Ids(s) {
        var k :| 0 <= k < |s| && s[k].id == x;
        assert k < i ==> t[k].id == x;
      }
      if x in Ids(t) {
        var k :| 0 <= k < |t| && t[k].id == x;
        assert s[k].id == x;
      }
    }
  }

  lemma MarkNone(table: seq<Command>, cmds: seq<Command>)
    requires cmds == []
    ensures MarkSent(table, Ids(cmds)) == table
  {
    assert Ids(cmds) == {};
  }

  class CommandQueue {
    var commands: seq<Command>

    /** One poll. markSentOk tells whether the UPDATE succeeded; a failure is only logged. */
    method GetPendingCommandsForHost(hostname: string, markSentOk: bool) returns (polled: seq<Command>)
      modifies this
      ensures polled == Prefix(Queue(hostname, old(commands)), 10)
      ensures commands == if markSentOk then MarkSent(old(commands), Ids(polled)) else old(commands)
      ensures |commands| == |old(commands)|
      ensures forall i :: 0 <= i < |commands| ==>
                && var c := old(commands)[i];
                commands[i] == if markSentOk && InPoll(polled, c.id) then c.(status := Sent) else c
    {
      var rows := Queue(hostname, commands);
      polled := [];
      while |polled| < |rows| && |polled| < BATCH
        invariant |polled| <= |rows| && |polled| <= BATCH && polled == rows[..|polled|]
      {
        polled := polled + [rows[|polled|]];
      }
      if |polled| > 0 {
        var ids: set<int> := {};
        for i := 0 to |polled|
          invariant ids == Ids(polled[..i]) && commands == old(commands)
        {
          ids := ids + {polled[i].id};
          IdsSnoc(polled, i);
        }
        assert polled[..|polled|] == polled;
        if markSentOk {
          commands := MarkSent(commands, ids);
        }
      } else {
        MarkNone(commands, polled);
      }
    }
  }

  // ---------------------------------------------------------------- marking and the other rows

  function Unsent(ids: set<int>): Command -> bool {
    (c: Command) => c.id !in ids
  }

  function StillPending(host: string, ids: set<int>): Command -> bool {
    (c: Command) => c.hostname == host && c.status == Pending && c.id !in ids
  }

  lemma {:induction false} FilterMarked(host: string, table: seq<Command>, ids: set<int>)
    ensures Filter(PendingFor(host), MarkSent(table, ids)) == Filter(StillPending(host, ids), table)
  {
    if table != [] {
      FilterMarked(host, table[1..], ids);
      assert MarkSent(table, ids)[1..] == MarkSent(table[1..], ids);
    }
  }

  /** Marking commands sent takes exactly them out of the queue and keeps the order of the others. */
  lemma QueueAfterMark(host: string, table: seq<Command>, ids: set<int>)
    ensures Queue(host, MarkSent(table, ids)) == Filter(Unsent(ids), Queue(host, table))
  {
    FilterMarked(host, table, ids);
    FilterTwice(PendingFor(host), Unsent(ids), StillPending(host, ids), table);
    FilterSort(Unsent(ids), QueueOrder, Filter(PendingFor(host), table));
  }

  lemma {:induction false} DropPrefix(s: seq<Command>, n: nat, ids: set<int>)
    requires UniqueIds(s) && n <= |s| && ids == Ids(s[..n])
    ensures Filter(Unsent(ids), s) == s[n..]
  {
    forall k | 0 <= k < |s| ensures s[k].id in ids <==> k < n {
      if k < n {
        assert s[..n][k] == s[k];
      }
    }
    DropWhile(s, n, ids);
  }

  lemma {:induction false} DropWhile(s: seq<Command>, n: nat, ids: set<int>)
    requires n <= |s| && forall k :: 0 <= k < |s| ==> (s[k].id in ids <==> k < n)
    ensures Filter(Unsent(ids), s) == s[n..]
  {
    if s != [] {
      DropWhile(s[1..], if n > 0 then n - 1 else 0, ids);
    }
  }

  lemma QueueUnique(host: string, table: seq<Command>)
    requires UniqueIds(table)
    ensures UniqueIds(Queue(host, table))
    ensures forall c :: c in Queue(host, table) <==> c in table && c.hostname == host && c.status == Pending
  {
    var kept := Filter(PendingFor(host), table);
    FilterUnique(PendingFor(host), table);
    SortSorted(QueueOrder, kept);
    UniquePermutation(kept, Queue(host, table));
    forall c ensures c in Queue(host, table) <==> c in table && c.hostname == host && c.status == Pending {
      FilterMember(PendingFor(host), table, c);
      assert c in Queue(host, table) <==> c in multiset(Queue(host, table));
      assert c in kept <==> c in multiset(kept);
    }
  }

  /** A queue is handed out by the stored priority word, the last in the order of words first, and oldest
      first within a priority: all medium commands, then low, then high, then critical. */
  lemma QueueInOrder(host: string, table: seq<Command>, i: nat, j: nat)
    requires i < j < |Queue(host, table)|
    ensures var a, b := Queue(host, table)[i], Queue(host, table)[j];
            && !Before(Word(a.priority), Word(b.priority))
            && (a.priority == b.priority ==> a.createdAt <= b.createdAt)
            && (a.priority == b.priority || a.priority == Medium || b.priority == Critical || (a.priority == Low && b.priority == High))
  {
    SortSorted(QueueOrder, Filter(PendingFor(host), table));
    var a, b := Queue(host, table)[i], Queue(host, table)[j];
    assert Le(QueueOrder(a), QueueOrder(b));
    RankOrdersWords(a.priority, b.priority);
  }

  lemma {:induction false} FilterUnique(p: Command -> bool, s: seq<Command>)
    requires UniqueIds(s)
    ensures UniqueIds(Filter(p, s))
  {
    if s != [] {
      FilterUnique(p, s[1..]);
      var rest := Filter(p, s[1..]);
      forall i | 0 <= i < |rest| ensures rest[i].id != s[0].id {
        FilterMember(p, s[1..], rest[i]);
        assert rest[i] in rest;
      }
    }
  }

  /** Unique ids are a property of the multiset of commands. */
  lemma UniquePermutation(s: seq<Command>, t: seq<Command>)
    requires UniqueIds(s) && multiset(s) == multiset(t)
    ensures UniqueIds(t)
  {
    forall i, j | 0 <= i < j < |t| ensures t[i].id != t[j].id {
      if t[i].id == t[j].id {
        assert t[i] in multiset(s) && t[j] in multiset(s);
        var k :| 0 <= k < |s| && s[k] == t[i];
        var l :| 0 <= l < |s| && s[l] == t[j];
        assert k == l;
        TwiceInSeq(t, i, j);
        OnceInUnique(s, k);
        assert false;
      }
    }
  }

  lemma TwiceInSeq(t: seq<Command>, i: nat, j: nat)
    requires i < j < |t| && t[i] == t[j]
    ensures multiset(t)[t[i]] >= 2
  {
    assert t == t[..i] + [t[i]] + t[i + 1..j] + [t[j]] + t[j + 1..];
  }

  lemma OnceInUnique(s: seq<Command>, k: nat)
    requires UniqueIds(s) && k < |s|
    ensures multiset(s)[s[k]] == 1
  {
    assert s == s[..k] + [s[k]] + s[k + 1..];
    assert s[k] !in s[..k] && s[k] !in s[k + 1..];
  }

  lemma MarkKeepsIds(table: seq<Command>, ids: set<int>)
    requires UniqueIds(table)
    ensures UniqueIds(MarkSent(table, ids))
  {
  }

  // ---------------------------------------------------------------- polling

  /** A successful poll leaves the rest of the queue, and the queues of other hosts as they were. */
  lemma PollTakesPrefix(host: string, table: seq<Command>, other: string)
    requires UniqueIds(table)
    ensures var q := Queue(host, table); var after := MarkSent(table, Ids(Prefix(q, BATCH)));
            && Queue(host, after) == Rest(q, BATCH)
            && (other != host ==> Queue(other, after) == Queue(other, table))
  {
    var q := Queue(host, table);
    var n := if BATCH <= |q| then BATCH else |q|;
    var ids := Ids(Prefix(q, BATCH));
    assert Prefix(q, BATCH) == q[..n];
    QueueUnique(host, table);
    QueueAfterMark(host, table, ids);
    DropPrefix(q, n, ids);
    if other != host {
      QueueAfterMark(other, table, ids);
      forall c | c in Queue(other, table) ensures Unsent(ids)(c) {
        OtherHostUntouched(host, table, other, c, ids);
      }
      FilterAllOrNone(Unsent(ids), Queue(other, table));
    }
  }

  lemma OtherHostUntouched(host: string, table: seq<Command>, other: string, c: Command, ids: set<int>)
    requires UniqueIds(table) && other != host && c in Queue(other, table)
    requires ids == Ids(Prefix(Queue(host, table), BATCH))
    ensures c.id !in ids
  {
    QueueUnique(host, table);
    QueueUnique(other, table);
    var p := Prefix(Queue(host, table), BATCH);
    forall i | 0 <= i < |p| ensures p[i].id != c.id {
      assert p[i] == Queue(host, table)[i];
      assert p[i] in Queue(host, table);
    }
  }

  /** The table after polls of one host whose mark results are `marks`. */
  function TableAfter(host: string, table: seq<Command>, marks: seq<bool>): seq<Command> {
    if marks == [] then table
    else
      var t := TableAfter(host, table, marks[..|marks| - 1]);
      if marks[|marks| - 1] then MarkSent(t, Ids(Prefix(Queue(host, t), BATCH))) else t
  }

  function Successes(marks: seq<bool>): nat {
    if marks == [] then 0 else Successes(marks[..|marks| - 1]) + (if marks[|marks| - 1] then 1 else 0)
  }

  /** After any sequence of polls, marked or not, the queue has lost exactly ten commands per
      successful mark, from the front, and other hosts' queues are untouched. */
  lemma {:induction false} QueueAfterPolls(host: string, table: seq<Command>, marks: seq<bool>, other: string)
    requires UniqueIds(table)
    ensures var t := TableAfter(host, table, marks);
            && UniqueIds(t)
            && Queue(host, t) == Rest(Queue(host, table), BATCH * Successes(marks))
            && (other != host ==> Queue(other, t) == Queue(other, table))
  {
    hide Queue, MarkSent, Ids;
    if marks != [] {
      var init := marks[..|marks| - 1];
      QueueAfterPolls(host, table, init, other);
      var t := TableAfter(host, table, init);
      PollTakesPrefix(host, t, other);
      MarkKeepsIds(t, Ids(Prefix(Queue(host, t), BATCH)));
      PrefixSteps(Queue(host, table), BATCH * Successes(init), BATCH);
    }
  }

  /** What the polls return, one after the other, counting only those whose mark succeeded. */
  function Handed(host: string, table: seq<Command>, marks: seq<bool>): seq<Command> {
    if marks == [] then []
    else
      var init := marks[..|marks| - 1];
      Handed(host, table, init)
        + (if marks[|marks| - 1] then Prefix(Queue(host, TableAfter(host, table, init)), BATCH) else [])
  }

  /** Drain: poll j returns the ten commands after ten times the number of earlier successful marks, so a
      poll whose mark failed is answered again; the successful polls hand out the front of the queue in
      order, each command once. */
  lemma {:induction false} Drain(host: string, table: seq<Command>, marks: seq<bool>)
    requires UniqueIds(table)
    ensures forall j :: 0 <= j < |marks| ==>
              Prefix(Queue(host, TableAfter(host, table, marks[..j])), BATCH)
                == Prefix(Rest(Queue(host, table), BATCH * Successes(marks[..j])), BATCH)
    ensures Handed(host, table, marks) == Prefix(Queue(host, table), BATCH * Successes(marks))
  {
    hide Queue, MarkSent, Ids;
    forall j | 0 <= j < |marks|
      ensures Prefix(Queue(host, TableAfter(host, table, marks[..j])), BATCH)
                == Prefix(Rest(Queue(host, table), BATCH * Successes(marks[..j])), BATCH)
    {
      QueueAfterPolls(host, table, marks[..j], host);
    }
    if marks != [] {
      var init := marks[..|marks| - 1];
      Drain(host, table, init);
      QueueAfterPolls(host, table, init, host);
      PrefixSteps(Queue(host, table), BATCH * Successes(init), BATCH);
    }
  }

  // ---------------------------------------------------------------- what the order does to priorities

  /** No command of a lower priority is handed out before a critical one. */
  ghost predicate CriticalFirst(q: seq<Command>) {
    forall i, j :: 0 <= i < j < |q| && q[j].priority == Critical ==> q[i].priority == Critical
  }

  lemma CriticalFirstSorted(q: seq<Command>)
    requires Sorted(QueueOrder, q)
    ensures CriticalFirst(q) <==>
              (forall c :: c in q ==> c.priority == Critical) || (forall c :: c in q ==> c.priority != Critical)
  {
    if c :| CriticalFirst(q) && c in q && c.priority == Critical {
      var j :| 0 <= j < |q| && q[j] == c;
      forall i | 0 <= i < |q| ensures q[i].priority == Critical {
        if i > j {
          assert Le(QueueOrder(q[j]), QueueOrder(q[i]));
        }
      }
    }
  }

  /** The schema says that critical commands go first. The query sorts the word, so they go last: the
      promise is kept exactly when the host's pending commands are all critical or none is. */
  lemma CriticalFirstExactly(host: string, table: seq<Command>)
    ensures var pending := Filter(PendingFor(host), table);
            CriticalFirst(Queue(host, table)) <==>
              || (forall c :: c in pending ==> c.priority == Critical)
              || (forall c :: c in pending ==> c.priority != Critical)
  {
    var pending, q := Filter(PendingFor(host), table), Queue(host, table);
    SortSorted(QueueOrder, pending);
    forall c ensures c in q <==> c in pending {
      assert c in q <==> c in multiset(q);
      assert c in pending <==> c in multiset(pending);
    }
    CriticalFirstSorted(q);
  }

  /** A concrete table on which a medium command is handed out before a critical one. */
  lemma CriticalGoesLast()
    ensures var urgent := Command(1, "host", Critical, Pending, 0);
            var routine := Command(2, "host", Medium, Pending, 5);
            Queue("host", [urgent, routine]) == [routine, urgent]
  {
    var urgent := Command(1, "host", Critical, Pending, 0);
    var routine := Command(2, "host", Medium, Pending, 5);
    var t := [urgent, routine];
    assert t[1..] == [routine] && [routine][1..] == [];
    assert Filter(PendingFor("host"), []) == [];
    assert Filter(PendingFor("host"), [routine]) == [routine];
    assert Filter(PendingFor("host"), t) == t;
    assert Sort(QueueOrder, [routine]) == [routine];
    assert Insert(QueueOrder, urgent, [routine]) == [routine] + Insert(QueueOrder, urgent, []);
  }
}
