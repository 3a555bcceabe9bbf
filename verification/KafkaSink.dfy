/**
 The sink's routines, with the loops they are written in. Each shared-memory access is one
 step of the protocol; between two accesses other goroutines take whatever steps the
 schedule hands them. What the routines do is thereby a run of the protocol.
 */
module KafkaSink {
  import opened Common
  import opened KafkaProtocol

  /** The buffer that the consumer grows message by message. */
  function Joined(b: Batch): Bytes {
    if b == [] then [] else Joined(b[..|b| - 1]) + b[|b| - 1]
  }

  lemma {:induction false} JoinedSize(b: Batch)
    ensures |Joined(b)| == Size(b)
  {
    if b != [] {
      JoinedSize(b[..|b| - 1]);
    }
  }

  lemma JoinedLast(b: Batch, m: Message)
    ensures Joined(b + [m]) == Joined(b) + m
  {
    assert (b + [m])[..|b|] == b;
  }

  /** A payload is the messages one after the other. */
  lemma {:induction false} JoinedSplit(a: Batch, b: Batch)
    ensures Joined(a + b) == Joined(a) + Joined(b)
    ensures forall m: Message :: Joined([m]) == m
    decreases |b|
  {
    if b == [] {
      assert a + b == a;
    } else {
      JoinedSplit(a, b[..|b| - 1]);
      assert (a + b)[..|a + b| - 1] == a + b[..|b| - 1];
      assert Joined(a) + (Joined(b[..|b| - 1]) + b[|b| - 1]) == Joined(a) + Joined(b[..|b| - 1]) + b[|b| - 1];
    }
    forall m: Message
      ensures Joined([m]) == m
    {
      assert [m][..0] == [] && Joined([]) + m == m;
    }
  }

  function Payloads(bs: seq<Batch>): Bytes {
    if bs == [] then [] else Payloads(bs[..|bs| - 1]) + Joined(bs[|bs| - 1])
  }

  lemma {:induction false} PayloadsJoin(bs: seq<Batch>)
    ensures Payloads(bs) == Joined(Flatten(bs))
  {
    if bs != [] {
      PayloadsJoin(bs[..|bs| - 1]);
      JoinedSplit(Flatten(bs[..|bs| - 1]), bs[|bs| - 1]);
    }
  }

  /** The log as bytes: the payloads acknowledged so far are, end to end, the beginning of what was written. */
  lemma BytesInOrder(es: seq<Event>)
    requires Run(es)
    ensures
      var s := Final(es);
      Payloads(s.acked) + Joined(InHand(s.consumer)) + Joined(s.queue) == Joined(s.accepted)
  {
    RunKeepsInv(es);
    var s := Final(es);
    PayloadsJoin(s.acked);
    JoinedSplit(Flatten(s.acked), InHand(s.consumer));
    JoinedSplit(Flatten(s.acked) + InHand(s.consumer), s.queue);
  }

  /** The goroutine whose code is being followed. */
  datatype Role = Consuming | Writing(writer: nat) | Syncing(call: nat)

  predicate By(me: Role, e: Event) {
    match me
    case Consuming => e.First? || e.Exit? || e.More? || e.Seal? || e.SendFails? || e.SendOk? || e.Add?
    case Writing(writer) => (e.Enqueue? || e.Drop? || e.Count?) && e.writer == writer
    case Syncing(call) => (e.SyncLoad? || e.SyncReturn?) && e.call == call
  }

  /** What a goroutine can rely on while others take steps. */
  ghost predicate Keeps(me: Role, s: State, s': State) {
    && s.accepted <= s'.accepted
    && match me
       case Consuming =>
         && s'.consumer == s.consumer && s'.acked == s.acked && s'.broker == s.broker
         && s'.completed == s.completed && s.queue <= s'.queue
       case Writing(writer) =>
         && (writer in s'.uncounted <==> writer in s.uncounted)
         && (writer in s.uncounted ==> s'.uncounted[writer] == s.uncounted[writer])
       case Syncing(call) =>
         && (call in s'.syncs <==> call in s.syncs)
         && (call in s.syncs ==> s'.syncs[call] == s.syncs[call])
  }

  lemma OthersKeep(me: Role, s: State, e: Event)
    requires Enabled(s, e) && !By(me, e)
    ensures Keeps(me, s, Apply(s, e))
  {
  }

  datatype Round = Completed(payload: Bytes, count: nat) | Blocked | Ended

  /** The shared state after others have taken those of these steps that were possible in their turn. */
  function After(s: State, others: seq<Event>): State {
    if others == [] then s
    else
      var before, e := After(s, others[..|others| - 1]), others[|others| - 1];
      if Enabled(before, e) then Apply(before, e) else before
  }

  function AfterRounds(s: State, rounds: seq<seq<Event>>): State {
    if rounds == [] then s else After(AfterRounds(s, rounds[..|rounds| - 1]), rounds[|rounds| - 1])
  }

  /** The first n polls found the count below the target. */
  ghost predicate AllBelow(first: State, target: nat, schedule: seq<seq<Event>>, n: nat)
    requires n <= |schedule|
  {
    n > 0 ==> AfterRounds(first, schedule[..n - 1]).completed < target && AllBelow(first, target, schedule, n - 1)
  }

  lemma NextRound(first: State, schedule: seq<seq<Event>>, i: nat)
    requires i < |schedule|
    ensures AfterRounds(first, schedule[..i + 1]) == After(AfterRounds(first, schedule[..i]), schedule[i])
  {
    assert schedule[..i + 1][..i] == schedule[..i];
  }

  /** The polls before this one found the count too small, and this one found it reached or was the last. */
  ghost predicate PolledTo(first: State, target: nat, schedule: seq<seq<Event>>, polls: nat) {
    && polls <= |schedule| && AllBelow(first, target, schedule, polls)
    && (AfterRounds(first, schedule[..polls]).completed >= target || polls == |schedule|)
  }

  /** What a returned call has covered, said of the logs around it. */
  lemma Covered(before: seq<Event>, call: nat, loaded: seq<Event>, after: seq<Event>)
    requires Run(before) && loaded == before + [SyncLoad(call)] && loaded <= after && Run(after)
    requires call in Final(after).syncs && Final(after).syncs[call].returned
    ensures
      var s, s' := Final(before), Final(after);
      && |s.uncounted| <= |s.accepted|
      && s.accepted[..|s.accepted| - |s.uncounted|] <= Flatten(s'.acked)
  {
    var more := after[|loaded|..];
    assert after == before + [SyncLoad(call)] + more;
    SyncGuarantee(before, more, call);
  }

  /** The queue as it was is in the batch, or still queued, in its order. */
  ghost predicate Holds(batch: Batch, queue: seq<Message>, was: seq<Message>) {
    was <= batch + queue
  }

  lemma HoldsLonger(batch: Batch, queue: seq<Message>, queue': seq<Message>, was: seq<Message>)
    requires Holds(batch, queue, was) && queue <= queue'
    ensures Holds(batch, queue', was)
  {
  }

  lemma HoldsTaken(batch: Batch, queue: seq<Message>, was: seq<Message>)
    requires Holds(batch, queue, was) && queue != []
    ensures Holds(batch + [queue[0]], queue[1..], was)
  {
    assert batch + queue == batch + [queue[0]] + queue[1..];
  }

  predicate NoneBy(me: Role, es: seq<Event>) {
    forall i :: 0 <= i < |es| ==> !By(me, es[i])
  }

  predicate NoRoundBy(me: Role, rounds: seq<seq<Event>>) {
    forall i :: 0 <= i < |rounds| ==> NoneBy(me, rounds[i])
  }

  /** A failed attempt to send: whether it reached the broker all the same, and what others did before the next. */
  datatype Failure = Failure(reached: bool, meanwhile: seq<Event>)

  /** How many of the failed attempts reached the broker all the same. */
  function Reached(failures: seq<Failure>): nat {
    if failures == [] then 0
    else Reached(failures[..|failures| - 1]) + if failures[|failures| - 1].reached then 1 else 0
  }

  function Copies(b: Batch, n: nat): seq<Batch> {
    if n == 0 then [] else Copies(b, n - 1) + [b]
  }

  /** The broker has since received exactly n copies of this batch. */
  ghost predicate SentTo(broker: seq<Batch>, before: seq<Batch>, b: Batch, n: nat) {
    broker == before + Copies(b, n)
  }

  lemma OneMoreCopy(broker: seq<Batch>, before: seq<Batch>, b: Batch, n: nat)
    requires SentTo(broker, before, b, n)
    ensures SentTo(broker + [b], before, b, n + 1)
  {
  }

  lemma OneMoreFailure(failures: seq<Failure>, j: nat)
    requires j < |failures|
    ensures Reached(failures[..j + 1]) == Reached(failures[..j]) + if failures[j].reached then 1 else 0
  {
    assert failures[..j + 1][..j] == failures[..j];
  }

  /** What the other goroutines do while the consumer works on one batch. */
  datatype Schedule = Schedule(
    receiving: seq<Event>,
    collecting: seq<seq<Event>>,
    sealed: seq<Event>,
    failures: seq<Failure>,
    acknowledged: seq<Event>)

  predicate ByOthers(sch: Schedule) {
    && NoneBy(Consuming, sch.receiving)
    && NoRoundBy(Consuming, sch.collecting)
    && NoneBy(Consuming, sch.sealed)
    && (forall i :: 0 <= i < |sch.failures| ==> NoneBy(Consuming, sch.failures[i].meanwhile))
    && NoneBy(Consuming, sch.acknowledged)
  }

  class Sink {
    var shared: State
    ghost var log: seq<Event>

    ghost predicate Valid()
      reads this
    {
      Run(log) && shared == Final(log)
    }

    constructor ()
      ensures Valid() && shared == EMPTY && log == []
    {
      shared, log := EMPTY, [];
    }

    method Step(e: Event)
      requires Valid() && Enabled(shared, e)
      modifies this
      ensures Valid() && log == old(log) + [e] && shared == Apply(old(shared), e)
    {
      ghost var longer := Extend(log, e);
      shared := Apply(shared, e);
      log := longer;
    }

    /** Other goroutines take those of the given steps that are possible when their turn comes. */
    method Interfere(ghost me: Role, others: seq<Event>)
      requires Valid()
      requires NoneBy(me, others)
      modifies this
      ensures Valid() && old(log) <= log
      ensures Keeps(me, old(shared), shared)
      ensures shared == After(old(shared), others)
    {
      for i := 0 to |others|
        invariant Valid() && old(log) <= log
        invariant shared == After(old(shared), others[..i])
        invariant Keeps(me, old(shared), shared)
      {
        var e := others[i];
        assert others[..i + 1][..i] == others[..i];
        if Enabled(shared, e) {
          OthersKeep(me, shared, e);
          Step(e);
        }
      }
      assert others[..|others|] == others;
    }

    /** Enqueue a copy or report a full queue; count afterwards. Writing to a closed sink is the caller's error. */
    method Write(writer: nat, b: Bytes, meanwhile: seq<Event>) returns (n: Option<nat>)
      requires Valid() && !shared.closed && writer !in shared.uncounted
      requires NoneBy(Writing(writer), meanwhile)
      modifies this
      ensures Valid() && old(log) <= log
      ensures n.None? <==> |old(shared).queue| >= 1024
      ensures n.None? ==> shared == old(shared)
      ensures n.Some? ==> n.value == |b| && old(shared).accepted + [b] <= shared.accepted
      ensures n.Some? ==> Counted(shared, |old(shared).accepted|)
      ensures writer !in shared.uncounted
    {
      if |shared.queue| < CAPACITY {
        Step(Enqueue(writer, b));
        Interfere(Writing(writer), meanwhile);
        RunKeepsInv(log);
        Step(Count(writer));
        return Some(|b|);
      } else {
        return None;
      }
    }

    /** Poll until the completed count reaches the target or the schedule runs out. */
    method Poll(call: nat, target: nat, schedule: seq<seq<Event>>) returns (ghost polls: nat)
      requires Valid() && call in shared.syncs && NoRoundBy(Syncing(call), schedule)
      modifies this
      ensures Valid() && old(log) <= log
      ensures call in shared.syncs && shared.syncs[call] == old(shared).syncs[call]
      ensures PolledTo(old(shared), target, schedule, polls) && shared == AfterRounds(old(shared), schedule[..polls])
    {
      polls := 0;
      var i := 0;
      while shared.completed < target && i < |schedule|
        invariant Valid() && old(log) <= log
        invariant call in shared.syncs && shared.syncs[call] == old(shared).syncs[call]
        invariant polls == i <= |schedule| && shared == AfterRounds(old(shared), schedule[..i])
        invariant AllBelow(old(shared), target, schedule, i)
        decreases |schedule| - i
      {
        NextRound(old(shared), schedule, i);
        Interfere(Syncing(call), schedule[i]);
        i := i + 1;
        polls := i;
      }
    }

    /**
     Load the issued count and poll. It returns at the first poll that finds the count reached,
     and gives up only when every round of the schedule has been used.
     */
    method Sync(call: nat, before: seq<Event>, schedule: seq<seq<Event>>) returns (done: bool, ghost polls: nat)
      requires Valid() && call !in shared.syncs
      requires NoneBy(Syncing(call), before) && NoRoundBy(Syncing(call), schedule)
      modifies this
      ensures Valid() && old(log) <= log
      ensures
        var first := After(Apply(old(shared), SyncLoad(call)), before);
        && PolledTo(first, old(shared).issued, schedule, polls)
        && var last := AfterRounds(first, schedule[..polls]);
        && (done <==> last.completed >= old(shared).issued)
        && (!done ==> shared == last)
        && (done ==> Enabled(last, SyncReturn(call)) && shared == Apply(last, SyncReturn(call)))
      ensures done ==>
        var p := |old(shared).uncounted|;
        && p <= |old(shared).accepted|
        && old(shared).accepted[..|old(shared).accepted| - p] <= Flatten(shared.acked)
    {
      Step(SyncLoad(call));
      ghost var loaded := log;
      var target := shared.syncs[call].target;
      Interfere(Syncing(call), before);
      polls := Poll(call, target, schedule);
      if shared.completed < target {
        return false, polls;
      }
      Step(SyncReturn(call));
      Covered(old(log), call, loaded, log);
      return true, polls;
    }

    /** Take the next message from the queue and append it to the buffer. */
    method Append(msg: Bytes, ghost batch: Batch) returns (msg': Bytes, ghost batch': Batch)
      requires Valid() && shared.consumer == Batching(batch) && shared.queue != []
      requires msg == Joined(batch) && |msg| < BATCH_LIMIT
      modifies this
      ensures Valid() && old(log) <= log && shared.consumer == Batching(batch')
      ensures shared.acked == old(shared).acked && shared.completed == old(shared).completed
      ensures msg' == Joined(batch') && batch' == batch + [old(shared).queue[0]]
      ensures shared.queue == old(shared).queue[1..]
    {
      JoinedSize(batch);
      JoinedLast(batch, shared.queue[0]);
      msg' := msg + shared.queue[0];
      batch' := batch + [shared.queue[0]];
      Step(More);
    }

    /**
     Grow the buffer until the limit is reached or the queue is momentarily empty. Others
     take a round of steps, while there are rounds left, before each look at the queue.
     */
    method Fill(first: Message, rounds: seq<seq<Event>>, ghost was: seq<Message>)
        returns (msg: Bytes, numMessages: nat, ghost batch: Batch)
      requires Valid() && shared.consumer == Batching([first]) && Holds([first], shared.queue, was)
      requires NoRoundBy(Consuming, rounds)
      modifies this
      ensures Valid() && old(log) <= log
      ensures shared.consumer == Batching(batch) && Holds(batch, shared.queue, was)
      ensures shared.acked == old(shared).acked && shared.completed == old(shared).completed
      ensures msg == Joined(batch) && numMessages == |batch|
      ensures |msg| < BATCH_LIMIT ==> shared.queue == []
    {
      msg, numMessages, batch := first, 1, [first];
      assert batch[..0] == [];
      var i := 0;
      while |msg| < BATCH_LIMIT
        invariant Valid() && old(log) <= log
        invariant shared.consumer == Batching(batch) && Holds(batch, shared.queue, was)
        invariant shared.acked == old(shared).acked && shared.completed == old(shared).completed
        invariant msg == Joined(batch) && numMessages == |batch|
        decreases |rounds| - i, |shared.queue|
      {
        if i < |rounds| {
          ghost var queue := shared.queue;
          Interfere(Consuming, rounds[i]);
          HoldsLonger(batch, queue, shared.queue, was);
          i := i + 1;
        }
        if shared.queue == [] {
          break;
        }
        HoldsTaken(batch, shared.queue, was);
        msg, batch := Append(msg, batch);
        numMessages := numMessages + 1;
      }
    }

    /** One batch: it is sealed at the limit or with everything that was queued. */
    method CollectBatch(rounds: seq<seq<Event>>) returns (msg: Bytes, numMessages: nat, ghost batch: Batch)
      requires Valid() && shared.consumer == Receiving && shared.queue != []
      requires NoRoundBy(Consuming, rounds)
      modifies this
      ensures Valid() && old(log) <= log
      ensures shared.consumer == Sending(batch) && BatchOk(batch)
      ensures shared.acked == old(shared).acked && shared.completed == old(shared).completed
      ensures msg == Joined(batch) && numMessages == |batch|
      ensures |msg| < 256 * 1024 ==> shared.queue == []
      ensures old(shared).queue <= batch + shared.queue
    {
      var first := shared.queue[0];
      Step(First);
      assert Holds([first], shared.queue, old(shared).queue);
      msg, numMessages, batch := Fill(first, rounds, old(shared).queue);
      JoinedSize(batch);
      Step(Seal);
      RunKeepsInv(log);
    }

    /** Send the batch again and again until it is acknowledged; then count its messages. */
    method SendBatch(numMessages: nat, sch: Schedule)
      requires Valid() && shared.consumer.Sending? && numMessages == |shared.consumer.batch|
      requires ByOthers(sch)
      modifies this
      ensures Valid() && old(log) <= log
      ensures shared.consumer == Receiving
      ensures shared.acked == old(shared).acked + [old(shared).consumer.batch]
      ensures shared.completed == old(shared).completed + numMessages
      ensures SentTo(shared.broker, old(shared).broker, old(shared).consumer.batch, Reached(sch.failures) + 1)
    {
      ghost var batch := shared.consumer.batch;
      Interfere(Consuming, sch.sealed);
      for j := 0 to |sch.failures|
        invariant Valid() && old(log) <= log
        invariant shared.consumer == old(shared).consumer
        invariant shared.acked == old(shared).acked && shared.completed == old(shared).completed
        invariant SentTo(shared.broker, old(shared).broker, batch, Reached(sch.failures[..j]))
      {
        OneMoreFailure(sch.failures, j);
        if sch.failures[j].reached {
          OneMoreCopy(shared.broker, old(shared).broker, batch, Reached(sch.failures[..j]));
        }
        Step(SendFails(sch.failures[j].reached));
        Interfere(Consuming, sch.failures[j].meanwhile);
      }
      assert sch.failures[..|sch.failures|] == sch.failures;
      OneMoreCopy(shared.broker, old(shared).broker, batch, Reached(sch.failures));
      Step(SendOk);
      Interfere(Consuming, sch.acknowledged);
      Step(Add);
    }

    /**
     One turn of the consumer goroutine. Exactly one batch is acknowledged and counted, its
     payload being its messages in order; it ends only when everything has been.
     */
    method ConsumeRound(sch: Schedule) returns (r: Round)
      requires Valid() && shared.consumer == Receiving
      requires ByOthers(sch)
      modifies this
      ensures Valid() && old(log) <= log
      ensures r.Completed? ==>
        && shared.consumer == Receiving
        && (exists batch :: BatchOk(batch) && shared.acked == old(shared).acked + [batch]
                         && r.payload == Joined(batch) && r.count == |batch|
                         && (|r.payload| < 256 * 1024 ==> old(shared).queue <= batch))
        && shared.completed == old(shared).completed + r.count
      ensures
        var s := After(old(shared), sch.receiving);
        && (r.Blocked? <==> s.queue == [] && !s.closed)
        && (r.Ended? <==> s.queue == [] && s.closed)
      ensures r.Blocked? ==> shared.consumer == Receiving && shared.queue == [] && shared.acked == old(shared).acked
      ensures r.Ended? ==> shared.consumer == Exited && Flatten(shared.acked) == shared.accepted
    {
      Interfere(Consuming, sch.receiving);
      if shared.queue == [] {
        if shared.closed {
          Step(Exit);
          ExitMeansDrained(log);
          return Ended;
        }
        return Blocked;
      }
      var msg, numMessages;
      ghost var batch;
      msg, numMessages, batch := CollectBatch(sch.collecting);
      SendBatch(numMessages, sch);
      return Completed(msg, numMessages);
    }
  }
}
