/** Batching on both sides of the log stream: the agent's BatchLogs and the server's SendRawLogStream
    (agent_linux/agent/grpc_ag/batch_logs.go, siem-server/internal/delivery/grpc_handler.go). */
module Batching {
  import opened Sequences
  import opened Wrappers

  /** A raw log; the server can only use it when its timestamp parses. */
  datatype Log = Log(content: string, validTimestamp: bool)

  const BATCH_SIZE := 10

  ghost predicate SizesOk(batches: seq<seq<Log>>) {
    forall k :: 0 <= k < |batches| ==> 1 <= |batches[k]| <= BATCH_SIZE
  }

  // ---------------------------------------------------------------- the agent

  /** What the select statement of the agent picks next. */
  datatype Select = Dequeue(log: Log) | Tick | Stop

  /** The logs dequeued before the agent stops. */
  function Dequeued(events: seq<Select>): seq<Log> {
    if events == [] || events[0].Stop? then []
    else (if events[0].Dequeue? then [events[0].log] else []) + Dequeued(events[1..])
  }

  lemma DequeuedHead(events: seq<Select>, n: nat)
    requires 0 < n <= |events| && !events[0].Stop?
    ensures Dequeued(events[..n]) == (if events[0].Dequeue? then [events[0].log] else []) + Dequeued(events[1..][..n - 1])
  {
    assert events[..n][1..] == events[1..][..n - 1];
  }

  lemma {:induction false} DequeuedSnoc(events: seq<Select>, n: nat)
    requires n < |events| && forall i :: 0 <= i < n ==> !events[i].Stop?
    ensures Dequeued(events[..n + 1]) ==
              if events[n].Dequeue? then Dequeued(events[..n]) + [events[n].log] else Dequeued(events[..n])
  {
    if n == 0 {
      assert events[..1][1..] == [];
    } else {
      DequeuedSnoc(events[1..], n - 1);
      DequeuedHead(events, n);
      DequeuedHead(events, n + 1);
    }
  }

  lemma {:induction false} DequeuedStop(events: seq<Select>, n: nat)
    requires n < |events| && events[n].Stop? && forall i :: 0 <= i < n ==> !events[i].Stop?
    ensures Dequeued(events) == Dequeued(events[..n])
  {
    if n > 0 {
      DequeuedStop(events[1..], n - 1);
      DequeuedHead(events, n);
    }
  }

  /** Everything dequeued is in a batch that was sent or in the buffer, in order. */
  ghost predicate Kept(dequeued: seq<Log>, sent: seq<seq<Log>>, pending: seq<Log>) {
    SizesOk(sent) && Flatten(sent) + pending == dequeued
  }

  lemma KeptSent(dequeued: seq<Log>, sent: seq<seq<Log>>, pending: seq<Log>)
    requires Kept(dequeued, sent, pending) && 1 <= |pending| <= BATCH_SIZE
    ensures Kept(dequeued, sent + [pending], [])
  {
    FlattenSnoc(sent, pending);
  }

  lemma NothingKept()
    ensures Kept(Dequeued([]), [], [])
  {
  }

  lemma KeptDequeue(dequeued: seq<Log>, sent: seq<seq<Log>>, pending: seq<Log>, log: Log)
    requires Kept(dequeued, sent, pending)
    ensures Kept(dequeued + [log], sent, pending + [log])
  {
    assert Flatten(sent) + (pending + [log]) == Flatten(sent) + pending + [log];
  }

  /** How many events the agent looks at: all up to the first stop. */
  function Seen(events: seq<Select>): (n: nat)
    ensures n <= |events|
    ensures forall i :: 0 <= i < n - 1 ==> !events[i].Stop?
    ensures n < |events| ==> n > 0 && events[n - 1].Stop?
  {
    if events == [] then 0 else if events[0].Stop? then 1 else 1 + Seen(events[1..])
  }

  /** The agent has to send after n events when it last did after `from`: ten logs have come since, or the
      last event is a tick or a stop and finds some. */
  predicate MustSend(events: seq<Select>, from: nat, n: nat)
    requires from < n <= |events|
  {
    var logs := Dequeued(events[from..n]);
    |logs| >= 10 || (!events[n - 1].Dequeue? && logs != [])
  }

  /** The next time after `from` at which the agent has to send is after n events. */
  ghost predicate NextCut(events: seq<Select>, from: nat, n: nat) {
    from < n <= |events| && MustSend(events, from, n) && forall m :: from < m < n ==> !MustSend(events, from, m)
  }

  /** The agent has sent for the last time after this many events. */
  function LastCut(cuts: seq<nat>): nat {
    if cuts == [] then 0 else cuts[|cuts| - 1]
  }

  /** Batch k is sent after cuts[k] events, the first time that the agent has to send since the batch before,
      and holds the logs dequeued since then. */
  ghost predicate CutsAt(events: seq<Select>, cuts: seq<nat>, sent: seq<seq<Log>>) {
    && |cuts| == |sent|
    && (cuts != [] ==>
         var n := |cuts| - 1;
         && CutsAt(events, cuts[..n], sent[..n])
         && NextCut(events, LastCut(cuts[..n]), cuts[n])
         && sent[n] == Dequeued(events[LastCut(cuts[..n])..cuts[n]]))
  }

  /** The batches sent are those, and the buffer holds the logs dequeued since the last of them. */
  ghost predicate Batched(events: seq<Select>, seen: nat, cuts: seq<nat>, sent: seq<seq<Log>>, pending: seq<Log>)
    requires seen <= |events|
  {
    && CutsAt(events, cuts, sent)
    && var from := LastCut(cuts);
    && from <= seen
    && pending == Dequeued(events[from..seen])
    && forall m :: from < m <= seen ==> !MustSend(events, from, m)
  }

  lemma BatchedStart(events: seq<Select>)
    ensures Batched(events, 0, [], [], [])
  {
  }

  /** One event more, and nothing to send. */
  lemma BatchedKeeps(events: seq<Select>, n: nat, cuts: seq<nat>, sent: seq<seq<Log>>, pending: seq<Log>, pending': seq<Log>)
    requires n < |events| && Batched(events, n, cuts, sent, pending)
    requires !MustSend(events, LastCut(cuts), n + 1) && pending' == Dequeued(events[LastCut(cuts)..n + 1])
    ensures Batched(events, n + 1, cuts, sent, pending')
  {
  }

  /** One event more, at which the agent has to send. */
  lemma BatchedSends(events: seq<Select>, n: nat, cuts: seq<nat>, sent: seq<seq<Log>>, pending: seq<Log>, batch: seq<Log>)
    requires n < |events| && Batched(events, n, cuts, sent, pending)
    requires MustSend(events, LastCut(cuts), n + 1) && batch == Dequeued(events[LastCut(cuts)..n + 1])
    ensures Batched(events, n + 1, cuts + [n + 1], sent + [batch], [])
  {
    hide MustSend;
    assert (cuts + [n + 1])[..|cuts|] == cuts && (sent + [batch])[..|sent|] == sent;
    assert events[n + 1..n + 1] == [];
  }

  /** What the last event adds to the logs dequeued since the last batch. */
  lemma DequeuedSince(events: seq<Select>, from: nat, n: nat)
    requires from <= n < |events| && forall i :: 0 <= i < n ==> !events[i].Stop?
    ensures Dequeued(events[from..n + 1]) ==
              if events[n].Dequeue? then Dequeued(events[from..n]) + [events[n].log] else Dequeued(events[from..n])
  {
    var since := events[from..];
    DequeuedSnoc(since, n - from);
    assert since[..n - from] == events[from..n] && since[..n - from + 1] == events[from..n + 1];
    assert since[n - from] == events[n];
  }

  lemma {:induction false} ShortCuts(events: seq<Select>, cuts: seq<nat>, sent: seq<seq<Log>>)
    requires CutsAt(events, cuts, sent)
    ensures forall k :: 0 <= k < |sent| && |sent[k]| < 10 ==> 0 < cuts[k] <= |events| && !events[cuts[k] - 1].Dequeue?
  {
    if cuts != [] {
      var n := |cuts| - 1;
      ShortCuts(events, cuts[..n], sent[..n]);
      assert forall k :: 0 <= k < n ==> sent[k] == sent[..n][k] && cuts[k] == cuts[..n][k];
    }
  }

  /** A batch of fewer than ten logs was sent at a tick or a stop; and what a tick or a stop leaves behind
      is an empty buffer. */
  lemma ShortBatches(events: seq<Select>, seen: nat, cuts: seq<nat>, sent: seq<seq<Log>>, pending: seq<Log>)
    requires seen <= |events| && Batched(events, seen, cuts, sent, pending)
    ensures forall k :: 0 <= k < |sent| && |sent[k]| < 10 ==> 0 < cuts[k] <= |events| && !events[cuts[k] - 1].Dequeue?
    ensures |pending| < 10
    ensures seen > 0 && !events[seen - 1].Dequeue? ==> pending == []
  {
    ShortCuts(events, cuts, sent);
    var from := LastCut(cuts);
    if from < seen {
      assert !MustSend(events, from, seen);
    } else {
      assert events[from..seen] == [];
    }
  }

  /** The batches are cut exactly where ten logs have come, or a tick or a stop finds some. They
      concatenate, with the buffer, to the dequeued logs, in order; after a stop nothing is buffered. */
  method BatchLogs(events: seq<Select>) returns (sent: seq<seq<Log>>, pending: seq<Log>, ghost cuts: seq<nat>)
    ensures Batched(events, Seen(events), cuts, sent, pending)
    ensures Kept(Dequeued(events), sent, pending)
    ensures |pending| < BATCH_SIZE
    ensures Stop in events ==> pending == []
  {
    hide Kept, Batched, MustSend, Dequeued, Seen, LastCut;
    NothingKept();
    BatchedStart(events);
    sent, pending, cuts := [], [], [];
    assert events[..0] == [];
    var i := 0;
    while i < |events|
      invariant 0 <= i <= |events|
      invariant forall j :: 0 <= j < i ==> !events[j].Stop?
      invariant Kept(Dequeued(events[..i]), sent, pending)
      invariant Batched(events, i, cuts, sent, pending)
      invariant |pending| < BATCH_SIZE
    {
      DequeuedSnoc(events, i);
      PendingSince(events, i, cuts, sent, pending);
      if |pending| > 0 {
        KeptSent(Dequeued(events[..i]), sent, pending);
      }
      match events[i] {
        case Stop =>
          DequeuedStop(events, i);
          SeenStop(events, i);
          if |pending| > 0 {
            BatchedSends(events, i, cuts, sent, pending, pending);
            sent := sent + [pending];
            cuts := cuts + [i + 1];
            pending := [];
          } else {
            BatchedKeeps(events, i, cuts, sent, pending, pending);
          }
          return;
        case Dequeue(log) =>
          KeptDequeue(Dequeued(events[..i]), sent, pending, log);
          ghost var before := pending;
          pending := pending + [log];
          if |pending| >= BATCH_SIZE {
            KeptSent(Dequeued(events[..i + 1]), sent, pending);
            BatchedSends(events, i, cuts, sent, before, pending);
            sent := sent + [pending];
            cuts := cuts + [i + 1];
            pending := [];
          } else {
            BatchedKeeps(events, i, cuts, sent, before, pending);
          }
        case Tick =>
          if |pending| > 0 {
            BatchedSends(events, i, cuts, sent, pending, pending);
            sent := sent + [pending];
            cuts := cuts + [i + 1];
            pending := [];
          } else {
            BatchedKeeps(events, i, cuts, sent, pending, pending);
          }
      }
      i := i + 1;
    }
    SeenAll(events);
    assert events[..|events|] == events;
  }

  lemma PendingSince(events: seq<Select>, n: nat, cuts: seq<nat>, sent: seq<seq<Log>>, pending: seq<Log>)
    requires n < |events| && Batched(events, n, cuts, sent, pending) && forall i :: 0 <= i < n ==> !events[i].Stop?
    ensures LastCut(cuts) <= n
    ensures var logs := if events[n].Dequeue? then pending + [events[n].log] else pending;
            && Dequeued(events[LastCut(cuts)..n + 1]) == logs
            && (MustSend(events, LastCut(cuts), n + 1) <==> |logs| >= 10 || (!events[n].Dequeue? && logs != []))
  {
    hide CutsAt;
    DequeuedSince(events, LastCut(cuts), n);
  }

  lemma {:induction false} SeenStop(events: seq<Select>, n: nat)
    requires n < |events| && events[n].Stop? && forall i :: 0 <= i < n ==> !events[i].Stop?
    ensures Seen(events) == n + 1
  {
  }

  lemma SeenAll(events: seq<Select>)
    requires forall i :: 0 <= i < |events| ==> !events[i].Stop?
    ensures Seen(events) == |events|
  {
  }

  // ---------------------------------------------------------------- the server

  /** What one iteration meets: a log, the end of the stream, a broken stream, or a cancelled context. The
      context is looked at after Recv has returned, so a cancelled iteration may have received a log. */
  datatype Recv = Message(log: Log) | Eof | Broken | Cancelled(lost: Option<Log>)

  datatype StreamResult = Answered | Aborted | StillOpen

  /** The logs received before the stream ends one way or another. */
  function Received(recvs: seq<Recv>): seq<Log> {
    if recvs == [] || !recvs[0].Message? then [] else [recvs[0].log] + Received(recvs[1..])
  }

  /** The log received in the iteration that found the context cancelled: neither batched nor counted. */
  function LostTo(recvs: seq<Recv>): seq<Log> {
    if recvs == [] then []
    else match recvs[0]
      case Message(_) => LostTo(recvs[1..])
      case Cancelled(Some(log)) => [log]
      case _ => []
  }

  /** A stream is answered iff it is delivered to its end. */
  function ResultOf(recvs: seq<Recv>): StreamResult {
    if recvs == [] then StillOpen
    else match recvs[0]
      case Message(_) => ResultOf(recvs[1..])
      case Eof => Answered
      case _ => Aborted
  }

  function Valid(logs: seq<Log>): seq<Log> {
    if logs == [] then []
    else Valid(logs[..|logs| - 1]) + (if logs[|logs| - 1].validTimestamp then [logs[|logs| - 1]] else [])
  }

  /** The valid logs are those with a timestamp that parses, each as often as it came, in order. */
  lemma {:induction false} ValidExactly(logs: seq<Log>)
    ensures Subsequence(Valid(logs), logs)
    ensures forall log :: multiset(Valid(logs))[log] == if log.validTimestamp then multiset(logs)[log] else 0
  {
    hide Subsequence;
    if logs == [] {
      NothingMissing(logs);
    } else {
      var init, log := logs[..|logs| - 1], logs[|logs| - 1];
      ValidExactly(init);
      SubsequenceAppend(Valid(init), init, [log]);
      assert logs == init + [log];
      assert Valid(init) + [] == Valid(init);
    }
  }

  /** The logs of the batches whose number satisfies `ok` (processed) or not (failed). */
  function LogsWhere(batches: seq<seq<Log>>, ok: nat -> bool, verdict: bool): nat {
    if batches == [] then 0
    else
      var n := |batches| - 1;
      LogsWhere(batches[..n], ok, verdict) + (if ok(n) == verdict then |batches[n]| else 0)
  }

  lemma {:induction false} ReceivedSnoc(recvs: seq<Recv>, n: nat)
    requires n < |recvs| && forall i :: 0 <= i < n ==> recvs[i].Message?
    ensures recvs[n].Message? ==> Received(recvs[..n + 1]) == Received(recvs[..n]) + [recvs[n].log]
    ensures !recvs[n].Message? ==> Received(recvs) == Received(recvs[..n])
  {
    if n > 0 {
      ReceivedSnoc(recvs[1..], n - 1);
      assert recvs[..n + 1][1..] == recvs[1..][..n];
      assert recvs[..n][1..] == recvs[1..][..n - 1];
    } else {
      assert recvs[..1][1..] == [];
    }
  }

  lemma {:induction false} EndSkips(recvs: seq<Recv>, n: nat)
    requires n <= |recvs| && forall i :: 0 <= i < n ==> recvs[i].Message?
    ensures LostTo(recvs) == LostTo(recvs[n..]) && ResultOf(recvs) == ResultOf(recvs[n..])
  {
    if n > 0 {
      EndSkips(recvs[1..], n - 1);
      assert recvs[1..][n - 1..] == recvs[n..];
    } else {
      assert recvs[0..] == recvs;
    }
  }

  lemma ValidSnoc(logs: seq<Log>, log: Log)
    ensures Valid(logs + [log]) == Valid(logs) + (if log.validTimestamp then [log] else [])
  {
    assert (logs + [log])[..|logs|] == logs;
  }

  lemma WhereSnoc(batches: seq<seq<Log>>, b: seq<Log>, ok: nat -> bool, verdict: bool)
    ensures LogsWhere(batches + [b], ok, verdict) ==
              LogsWhere(batches, ok, verdict) + (if ok(|batches|) == verdict then |b| else 0)
  {
    assert (batches + [b])[..|batches|] == batches;
  }

  /** The state of the receive loop after `received` logs: every valid one is in a processed batch or in
      the buffer, in order, and the counters account for every other one. */
  ghost predicate Accounted(received: seq<Log>, batches: seq<seq<Log>>, batch: seq<Log>, ok: nat -> bool, processed: int, failed: int) {
    && SizesOk(batches)
    && Flatten(batches) + batch == Valid(received)
    && processed == LogsWhere(batches, ok, true)
    && failed == LogsWhere(batches, ok, false) + (|received| - |Valid(received)|)
    && processed + failed + |batch| == |received|
  }

  /** Handing the buffer to ProcessBatch. */
  lemma FlushAccounted(received: seq<Log>, batches: seq<seq<Log>>, batch: seq<Log>, ok: nat -> bool, processed: int, failed: int)
    requires Accounted(received, batches, batch, ok, processed, failed) && 1 <= |batch| <= BATCH_SIZE
    ensures Accounted(received, batches + [batch], [], ok,
                      processed + (if ok(|batches|) then |batch| else 0), failed + (if ok(|batches|) then 0 else |batch|))
  {
    FlattenSnoc(batches, batch);
    WhereSnoc(batches, batch, ok, true);
    WhereSnoc(batches, batch, ok, false);
  }

  lemma MessageAccounted(received: seq<Log>, log: Log, batches: seq<seq<Log>>, batch: seq<Log>, ok: nat -> bool, processed: int, failed: int)
    requires Accounted(received, batches, batch, ok, processed, failed)
    ensures log.validTimestamp ==> Accounted(received + [log], batches, batch + [log], ok, processed, failed)
    ensures !log.validTimestamp ==> Accounted(received + [log], batches, batch, ok, processed, failed + 1)
  {
    ValidSnoc(received, log);
    assert Flatten(batches) + (batch + [log]) == Flatten(batches) + batch + [log];
  }

  lemma AllCounted(received: seq<Log>, batches: seq<seq<Log>>, batch: seq<Log>, ok: nat -> bool, processed: int, failed: int)
    requires Accounted(received, batches, batch, ok, processed, failed)
    ensures processed + failed + |batch| == |received|
  {
  }

  lemma NothingAccounted(ok: nat -> bool)
    ensures Accounted([], [], [], ok, 0, 0)
  {
  }

  /** ProcessBatch on the buffer, whose outcome moves one of the counters by the size of the batch. */
  method Process(ghost received: seq<Log>, batches: seq<seq<Log>>, batch: seq<Log>, ok: nat -> bool, processed: int, failed: int)
    returns (batches': seq<seq<Log>>, processed': int, failed': int)
    requires Accounted(received, batches, batch, ok, processed, failed) && 1 <= |batch| <= BATCH_SIZE
    ensures batches' == batches + [batch] && Accounted(received, batches', [], ok, processed', failed')
    ensures processed' == processed + (if ok(|batches|) then |batch| else 0)
    ensures failed' == failed + (if ok(|batches|) then 0 else |batch|)
  {
    FlushAccounted(received, batches, batch, ok, processed, failed);
    batches', processed', failed' := batches + [batch], processed, failed;
    if ok(|batches|) {
      processed' := processed + |batch|;
    } else {
      failed' := failed + |batch|;
    }
  }

  /** One stream. ok(k) is the outcome of the k-th call of ProcessBatch. On the end-of-stream path the
      batches concatenate to exactly the valid logs and every received log is processed or failed; on
      the other paths what is missing is the buffered rest and, after a cancellation, the log that came
      in with it. */
  method SendRawLogStream(recvs: seq<Recv>, ok: nat -> bool)
    returns (result: StreamResult, batches: seq<seq<Log>>, unprocessed: seq<Log>, lost: seq<Log>, processed: int, failed: int)
    ensures Accounted(Received(recvs), batches, unprocessed, ok, processed, failed)
    ensures |unprocessed| < BATCH_SIZE
    ensures lost == LostTo(recvs)
    ensures processed + failed + |unprocessed| == |Received(recvs)|
    ensures result.Answered? ==> unprocessed == [] && lost == []
    ensures result == ResultOf(recvs)
    ensures forall k :: 0 <= k < |batches| - 1 ==> |batches[k]| == BATCH_SIZE
    ensures !result.Answered? ==> forall k :: 0 <= k < |batches| ==> |batches[k]| == BATCH_SIZE
  {
    hide Accounted;
    NothingAccounted(ok);
    result, batches, unprocessed, lost, processed, failed := StillOpen, [], [], [], 0, 0;
    var i := 0;
    while i < |recvs|
      invariant 0 <= i <= |recvs|
      invariant forall j :: 0 <= j < i ==> recvs[j].Message?
      invariant Accounted(Received(recvs[..i]), batches, unprocessed, ok, processed, failed)
      invariant |unprocessed| < BATCH_SIZE
      invariant forall k :: 0 <= k < |batches| ==> |batches[k]| == BATCH_SIZE
      invariant result.StillOpen? && lost == []
    {
      ReceivedSnoc(recvs, i);
      EndSkips(recvs, i);
      AllCounted(Received(recvs[..i]), batches, unprocessed, ok, processed, failed);
      match recvs[i] {
        case Cancelled(log) =>
          lost := if log.Some? then [log.value] else [];
          return Aborted, batches, unprocessed, lost, processed, failed;
        case Eof =>
          if |unprocessed| > 0 {
            batches, processed, failed := Process(Received(recvs), batches, unprocessed, ok, processed, failed);
            unprocessed := [];
            AllCounted(Received(recvs), batches, unprocessed, ok, processed, failed);
          }
          return Answered, batches, unprocessed, lost, processed, failed;
        case Broken => return Aborted, batches, unprocessed, lost, processed, failed;
        case Message(log) =>
          ghost var received := Received(recvs[..i]);
          MessageAccounted(received, log, batches, unprocessed, ok, processed, failed);
          if !log.validTimestamp {
            failed := failed + 1;
          } else {
            unprocessed := unprocessed + [log];
            if |unprocessed| >= BATCH_SIZE {
              batches, processed, failed := Process(received + [log], batches, unprocessed, ok, processed, failed);
              unprocessed := [];
            }
          }
      }
      i := i + 1;
    }
    EndSkips(recvs, |recvs|);
    AllCounted(Received(recvs[..|recvs|]), batches, unprocessed, ok, processed, failed);
    assert recvs[..|recvs|] == recvs;
  }

  // ---------------------------------------------------------------- end to end

  /** How the stream of one agent batch ends: delivered whole, broken after n logs, or cancelled after n
      logs, perhaps at the very moment when one more comes in. */
  datatype Delivery = Whole | BrokenAfter(n: nat) | CancelledAfter(n: nat, oneMore: bool)

  function Messages(logs: seq<Log>): seq<Recv> {
    seq(|logs|, i requires 0 <= i < |logs| => Message(logs[i]))
  }

  /** What the server receives of one agent batch. */
  function StreamOf(batch: seq<Log>, d: Delivery): seq<Recv> {
    match d
    case Whole => Messages(batch) + [Eof]
    case BrokenAfter(n) => Messages(Prefix(batch, n)) + [Broken]
    case CancelledAfter(n, oneMore) =>
      Messages(Prefix(batch, n)) + [Cancelled(if oneMore && n < |batch| then Some(batch[n]) else None)]
  }

  lemma {:induction false} StreamReceived(logs: seq<Log>, end: Recv)
    requires !end.Message?
    ensures Received(Messages(logs) + [end]) == logs
    ensures ResultOf(Messages(logs) + [end]).Answered? <==> end.Eof?
    ensures LostTo(Messages(logs) + [end]) == if end.Cancelled? && end.lost.Some? then [end.lost.value] else []
  {
    if logs != [] {
      StreamReceived(logs[1..], end);
      assert (Messages(logs) + [end])[1..] == Messages(logs[1..]) + [end];
    }
  }

  lemma NothingValid()
    ensures Valid([]) == []
  {
  }

  lemma {:induction false} ValidConcat(a: seq<Log>, b: seq<Log>)
    ensures Valid(a + b) == Valid(a) + Valid(b)
  {
    hide Valid;
    if b == [] {
      NothingValid();
      assert a + b == a;
    } else {
      var init, x := b[..|b| - 1], b[|b| - 1];
      ValidConcat(a, init);
      ValidSnoc(a + init, x);
      ValidSnoc(init, x);
      assert a + b == a + init + [x] && b == init + [x];
    }
  }

  lemma {:induction false} ValidShorter(logs: seq<Log>)
    ensures |Valid(logs)| <= |logs|
  {
    if logs != [] {
      ValidShorter(logs[..|logs| - 1]);
    }
  }

  /** Does the server process the logs of this batch? Of a stream that is not delivered whole only a full
      buffer was handed on: all ten logs arrived and were valid. */
  predicate Through(batch: seq<Log>, d: Delivery) {
    d.Whole? || (d.n >= BATCH_SIZE && |Valid(batch)| == BATCH_SIZE)
  }

  /** Two batches, the first one full, hold more than ten logs. */
  lemma TwoBatches(batches: seq<seq<Log>>)
    requires SizesOk(batches) && |batches| >= 2 && |batches[0]| == BATCH_SIZE
    ensures |Flatten(batches)| > BATCH_SIZE
  {
    FlattenGrows(batches, 1);
    OneBatch(batches[0]);
    assert batches[..1] == [batches[0]];
  }

  lemma OneBatch(batch: seq<Log>)
    ensures Flatten([batch]) == batch
  {
    FlattenSnoc([], batch);
    assert [] + [batch] == [batch];
  }

  /** The logs of a batch that the server receives in time to use them. */
  function Carried(batch: seq<Log>, d: Delivery): seq<Log> {
    if d.Whole? then batch else Prefix(batch, d.n)
  }

  lemma StreamCarries(batch: seq<Log>, d: Delivery)
    ensures Received(StreamOf(batch, d)) == Carried(batch, d)
    ensures ResultOf(StreamOf(batch, d)).Answered? <==> d.Whole?
    ensures LostTo(StreamOf(batch, d)) == if d.CancelledAfter? && d.oneMore && d.n < |batch| then [batch[d.n]] else []
  {
    var logs := Carried(batch, d);
    var end := StreamOf(batch, d)[|logs|];
    StreamReceived(logs, end);
    assert StreamOf(batch, d) == Messages(logs) + [end];
  }

  /** A cut stream that still filled a batch has carried all ten logs, all valid. */
  lemma CutFills(batch: seq<Log>, d: Delivery)
    requires |batch| <= BATCH_SIZE && !d.Whole?
    ensures |Valid(Carried(batch, d))| >= BATCH_SIZE <==> Through(batch, d)
    ensures Through(batch, d) ==> Carried(batch, d) == batch
    ensures |Valid(Carried(batch, d))| <= BATCH_SIZE
  {
    hide Valid;
    ValidShorter(Carried(batch, d));
    ValidShorter(batch);
    assert d.n == |batch| ==> batch[..d.n] == batch;
  }

  /** What the server makes of the stream of one agent batch: all its valid logs are processed, as one
      batch, or none is. */
  lemma StreamServed(batch: seq<Log>, d: Delivery, batches: seq<seq<Log>>, unprocessed: seq<Log>)
    requires 1 <= |batch| <= BATCH_SIZE && SizesOk(batches) && |unprocessed| < BATCH_SIZE
    requires forall j :: 0 <= j < |batches| - 1 ==> |batches[j]| == BATCH_SIZE
    requires Flatten(batches) + unprocessed == Valid(Received(StreamOf(batch, d)))
    requires if ResultOf(StreamOf(batch, d)).Answered? then unprocessed == []
             else forall j :: 0 <= j < |batches| ==> |batches[j]| == BATCH_SIZE
    ensures StreamDone(batch, d, batches)
  {
    hide ResultOf, Received, StreamOf, Carried, Through, Valid, Flatten;
    StreamCarries(batch, d);
    OneAtMost(batches);
    if d.Whole? {
      WholeCarries(batch);
    } else {
      CutFills(batch, d);
    }
  }

  lemma WholeCarries(batch: seq<Log>)
    ensures Carried(batch, Whole) == batch && Through(batch, Whole) && |Valid(batch)| <= |batch|
  {
    ValidShorter(batch);
  }

  /** Full batches but for the last: none, one, or more than ten logs. */
  lemma OneAtMost(batches: seq<seq<Log>>)
    requires SizesOk(batches) && forall j :: 0 <= j < |batches| - 1 ==> |batches[j]| == BATCH_SIZE
    ensures |batches| == 0 ==> Flatten(batches) == []
    ensures |batches| == 1 ==> Flatten(batches) == batches[0]
    ensures |batches| >= 2 ==> |Flatten(batches)| > BATCH_SIZE
  {
    if |batches| >= 2 {
      TwoBatches(batches);
    } else if |batches| == 1 {
      OneBatch(batches[0]);
      assert batches == [batches[0]];
    }
  }

  /** The agent's batches that go through. */
  function Arrived(sent: seq<seq<Log>>, deliveries: nat -> Delivery): seq<seq<Log>> {
    if sent == [] then []
    else
      var n := |sent| - 1;
      Arrived(sent[..n], deliveries) + (if Through(sent[n], deliveries(n)) then [sent[n]] else [])
  }

  /** What the stream of one agent batch has come to: all its valid logs as one batch at most, or nothing. */
  ghost predicate StreamDone(batch: seq<Log>, d: Delivery, batches: seq<seq<Log>>) {
    Flatten(batches) == (if Through(batch, d) then Valid(batch) else []) && |batches| <= 1
  }

  ghost predicate Served(sent: seq<seq<Log>>, deliveries: nat -> Delivery, served: seq<seq<seq<Log>>>) {
    |served| == |sent| && forall k :: 0 <= k < |sent| ==> StreamDone(sent[k], deliveries(k), served[k])
  }

  /** The processed logs of all streams are the valid ones of the batches that go through, in order. */
  lemma {:induction false} ServedExactly(sent: seq<seq<Log>>, deliveries: nat -> Delivery, served: seq<seq<seq<Log>>>)
    requires Served(sent, deliveries, served)
    ensures Flatten(Flatten(served)) == Valid(Flatten(Arrived(sent, deliveries)))
  {
    hide Valid, Through, Flatten;
    if sent == [] {
      NothingServed(served);
    } else {
      var n := |sent| - 1;
      var through := Through(sent[n], deliveries(n));
      ServedExactly(sent[..n], deliveries, served[..n]);
      ServedSnoc(Arrived(sent[..n], deliveries), if through then [sent[n]] else [], sent[n], served[..n], served[n]);
      assert served[..n] + [served[n]] == served;
    }
  }

  lemma ServedSnoc(arrived: seq<seq<Log>>, more: seq<seq<Log>>, batch: seq<Log>, served: seq<seq<seq<Log>>>, batches: seq<seq<Log>>)
    requires Flatten(Flatten(served)) == Valid(Flatten(arrived))
    requires (more == [batch] && Flatten(batches) == Valid(batch)) || (more == [] && Flatten(batches) == [])
    ensures Flatten(Flatten(served + [batches])) == Valid(Flatten(arrived + more))
  {
    hide Valid, Flatten;
    FlattenSnoc(served, batches);
    FlattenConcat(Flatten(served), batches);
    FlattenSnoc(arrived, batch);
    ValidConcat(Flatten(arrived), batch);
    assert more == [] ==> arrived + more == arrived;
  }

  lemma NothingServed(served: seq<seq<seq<Log>>>)
    requires |served| == 0
    ensures Flatten(Flatten(served)) == Valid(Flatten([]))
  {
  }

  /** Batches that do not go through leave gaps and nothing else. */
  lemma {:induction false} ArrivedInOrder(sent: seq<seq<Log>>, deliveries: nat -> Delivery)
    ensures Subsequence(Valid(Flatten(Arrived(sent, deliveries))), Valid(Flatten(sent)))
    ensures (forall k :: 0 <= k < |sent| ==> Through(sent[k], deliveries(k))) ==> Arrived(sent, deliveries) == sent
  {
    hide Valid, Through, Subsequence, Flatten;
    if sent == [] {
      NothingMissing(Valid(Flatten(sent)));
    } else {
      var n := |sent| - 1;
      ArrivedInOrder(sent[..n], deliveries);
      var arrived := Arrived(sent[..n], deliveries);
      FlattenSnoc(sent[..n], sent[n]);
      FlattenSnoc(arrived, sent[n]);
      ValidConcat(Flatten(sent[..n]), sent[n]);
      ValidConcat(Flatten(arrived), sent[n]);
      SubsequenceAppend(Valid(Flatten(arrived)), Valid(Flatten(sent[..n])), Valid(sent[n]));
      assert sent[..n] + [sent[n]] == sent && arrived + [] == arrived;
    }
  }

  lemma NothingMissing(logs: seq<Log>)
    ensures Subsequence(logs, logs)
  {
    var at: seq<nat> := seq(|logs|, i requires 0 <= i < |logs| => i);
    assert SubsequenceAt(logs, logs, at);
  }

  lemma ServedNext(sent: seq<seq<Log>>, k: nat, deliveries: nat -> Delivery, served: seq<seq<seq<Log>>>, batches: seq<seq<Log>>)
    requires k < |sent| && Served(sent[..k], deliveries, served)
    requires StreamDone(sent[k], deliveries(k), batches)
    ensures Served(sent[..k + 1], deliveries, served + [batches])
  {
    hide StreamDone;
  }

  /** What the streams have come to, seen from the logs the agent dequeued. */
  lemma EndsMeet(dequeued: seq<Log>, sent: seq<seq<Log>>, pending: seq<Log>, deliveries: nat -> Delivery, served: seq<seq<seq<Log>>>)
    requires Kept(dequeued, sent, pending) && Served(sent, deliveries, served)
    ensures var processed := Flatten(Flatten(served));
            && processed == Valid(Flatten(Arrived(sent, deliveries)))
            && Subsequence(processed, Valid(dequeued))
            && ((forall k :: 0 <= k < |sent| ==> deliveries(k).Whole?) ==> processed + Valid(pending) == Valid(dequeued))
  {
    hide Valid, Flatten, Subsequence, Arrived, Served;
    ServedExactly(sent, deliveries, served);
    ArrivedInOrder(sent, deliveries);
    ValidConcat(Flatten(sent), pending);
    SubsequenceAppend(Flatten(Flatten(served)), Valid(Flatten(sent)), Valid(pending));
  }

  /** End to end: BatchLogs on one side, and for each batch it hands over one SendRawLogStream on the
      other, each stream delivered whole or cut at any point. The logs the server hands to ProcessBatch
      are exactly the valid ones of the batches that go through; so they are valid logs that the agent
      dequeued, in order, none twice, and all of them if every stream is delivered whole and nothing is
      left in the agent's buffer. ok(k) are the outcomes on stream k. */
  method EndToEnd(events: seq<Select>, deliveries: nat -> Delivery, ok: nat -> (nat -> bool))
    returns (sent: seq<seq<Log>>, served: seq<seq<seq<Log>>>, pending: seq<Log>)
    ensures Kept(Dequeued(events), sent, pending) && (Stop in events ==> pending == [])
    ensures Flatten(Flatten(served)) == Valid(Flatten(Arrived(sent, deliveries)))
    ensures Subsequence(Flatten(Flatten(served)), Valid(Dequeued(events)))
    ensures (forall k :: 0 <= k < |sent| ==> deliveries(k).Whole?) ==> Flatten(Flatten(served)) + Valid(pending) == Valid(Dequeued(events))
    ensures |served| == |sent| && forall k :: 0 <= k < |served| ==> |served[k]| <= 1
  {
    hide Valid, Flatten, Subsequence, Arrived, StreamOf, Received, ResultOf, LostTo, LogsWhere, Dequeued, Through;
    ghost var cuts;
    sent, pending, cuts := BatchLogs(events);
    served := [];
    for k := 0 to |sent|
      invariant Served(sent[..k], deliveries, served)
    {
      var result, batches, unprocessed, _, _, _ := SendRawLogStream(StreamOf(sent[k], deliveries(k)), ok(k));
      StreamServed(sent[k], deliveries(k), batches, unprocessed);
      ServedNext(sent, k, deliveries, served, batches);
      served := served + [batches];
    }
    assert sent[..|sent|] == sent;
    EndsMeet(Dequeued(events), sent, pending, deliveries, served);
  }
}
