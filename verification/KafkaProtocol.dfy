/**
 The Kafka log sink as a protocol: many writers, a bounded queue, one batching consumer that
 retries, callers of Sync, and the two counters that Sync compares. A writer enqueues before
 it counts, so the counters can disagree with the queue for a while.
 */
module KafkaProtocol {
  import opened Common

  const CAPACITY := 1024
  const BATCH_LIMIT := 256 * 1024

  type Message = Bytes
  type Batch = seq<Message>

  /** Where the consumer goroutine is. */
  datatype Consumer =
    | Receiving
    | Batching(batch: Batch)
    | Sending(batch: Batch)
    | Counting(batch: Batch)  // acknowledged, not yet counted
    | Exited

  /** A call of Sync; `seen` messages were accepted and `racing` of them uncounted when it loaded the counter. */
  datatype SyncCall = SyncCall(target: nat, seen: nat, racing: nat, returned: bool)

  datatype State = State(
    queue: seq<Message>,
    closed: bool,
    issued: nat,
    completed: nat,
    consumer: Consumer,
    uncounted: map<nat, nat>,   // writers between enqueue and increment, with the message each owes
    syncs: map<nat, SyncCall>,
    accepted: seq<Message>,     // every message ever enqueued, in order
    acked: seq<Batch>,          // batches whose send returned without error
    broker: seq<Batch>)         // what reached the broker, retries included

  datatype Event =
    | Enqueue(writer: nat, msg: Message)
    | Drop(writer: nat)         // the queue is full
    | Count(writer: nat)
    | Close
    | First
    | Exit
    | More
    | Seal
    | SendFails(reached: bool)
    | SendOk
    | Add
    | SyncLoad(call: nat)
    | SyncReturn(call: nat)

  const EMPTY := State([], false, 0, 0, Receiving, map[], map[], [], [], [])

  function Size(b: Batch): nat {
    if b == [] then 0 else Size(b[..|b| - 1]) + |b[|b| - 1]|
  }

  predicate Enabled(s: State, e: Event) {
    match e
    case Enqueue(writer, _) => !s.closed && writer !in s.uncounted && |s.queue| < CAPACITY
    case Drop(writer) => !s.closed && writer !in s.uncounted && |s.queue| == CAPACITY
    case Count(writer) => writer in s.uncounted
    case Close => !s.closed
    case First => s.consumer == Receiving && s.queue != []
    case Exit => s.consumer == Receiving && s.queue == [] && s.closed
    case More => s.consumer.Batching? && Size(s.consumer.batch) < BATCH_LIMIT && s.queue != []
    case Seal => s.consumer.Batching? && (Size(s.consumer.batch) >= BATCH_LIMIT || s.queue == [])
    case SendFails(_) => s.consumer.Sending?
    case SendOk => s.consumer.Sending?
    case Add => s.consumer.Counting?
    case SyncLoad(call) => call !in s.syncs
    case SyncReturn(call) => call in s.syncs && !s.syncs[call].returned && s.completed >= s.syncs[call].target
  }

  function Apply(s: State, e: Event): State
    requires Enabled(s, e)
  {
    match e
    case Enqueue(writer, msg) =>
      s.(queue := s.queue + [msg], accepted := s.accepted + [msg], uncounted := s.uncounted[writer := |s.accepted|])
    case Drop(_) => s
    case Count(writer) => s.(issued := s.issued + 1, uncounted := s.uncounted - {writer})
    case Close => s.(closed := true)
    case First => s.(consumer := Batching([s.queue[0]]), queue := s.queue[1..])
    case Exit => s.(consumer := Exited)
    case More => s.(consumer := Batching(s.consumer.batch + [s.queue[0]]), queue := s.queue[1..])
    case Seal => s.(consumer := Sending(s.consumer.batch))
    case SendFails(reached) => if reached then s.(broker := s.broker + [s.consumer.batch]) else s
    case SendOk =>
      s.(consumer := Counting(s.consumer.batch),
         acked := s.acked + [s.consumer.batch], broker := s.broker + [s.consumer.batch])
    case Add => s.(consumer := Receiving, completed := s.completed + |s.consumer.batch|)
    case SyncLoad(call) => s.(syncs := s.syncs[call := SyncCall(s.issued, |s.accepted|, |s.uncounted|, false)])
    case SyncReturn(call) => s.(syncs := s.syncs[call := s.syncs[call].(returned := true)])
  }

  /** The state after these events, if each was enabled in its turn. */
  function Exec(es: seq<Event>): Option<State> {
    if es == [] then Some(EMPTY)
    else
      var before := Exec(es[..|es| - 1]);
      if before.Some? && Enabled(before.value, es[|es| - 1]) then Some(Apply(before.value, es[|es| - 1])) else None
  }

  predicate Run(es: seq<Event>) {
    Exec(es).Some?
  }

  function Final(es: seq<Event>): State
    requires Run(es)
  {
    Exec(es).value
  }

  lemma Extend(es: seq<Event>, e: Event) returns (es': seq<Event>)
    requires Run(es) && Enabled(Final(es), e)
    ensures es' == es + [e] && Run(es')
    ensures Final(es') == Apply(Final(es), e)
  {
    es' := es + [e];
    assert es'[..|es'| - 1] == es;
  }

  // ----- conservation and order -----

  function Flatten(bs: seq<Batch>): seq<Message> {
    if bs == [] then [] else Flatten(bs[..|bs| - 1]) + bs[|bs| - 1]
  }

  /** The batch that has been taken from the queue but not acknowledged. */
  function InHand(c: Consumer): Batch {
    if c.Batching? || c.Sending? then c.batch else []
  }

  /** Everything accepted is acknowledged, in hand or queued, in the order of acceptance. */
  predicate Conserved(s: State) {
    s.accepted == Flatten(s.acked) + InHand(s.consumer) + s.queue
  }

  /** Every batch is a non-empty run that was below the limit before its last message. */
  predicate BatchOk(b: Batch) {
    b != [] && (|b| == 1 || Size(b[..|b| - 1]) < BATCH_LIMIT)
  }

  predicate BatchesOk(s: State) {
    && (s.consumer.Batching? || s.consumer.Sending? || s.consumer.Counting? ==> BatchOk(s.consumer.batch))
    && forall i :: 0 <= i < |s.acked| ==> BatchOk(s.acked[i])
  }

  /** Its writer has incremented the counter, so its Write is past the point that Sync observes. */
  predicate Counted(s: State, i: nat) {
    i < |s.accepted| && forall w :: w in s.uncounted ==> s.uncounted[w] != i
  }

  /** Each writer that has not counted owes one accepted message, and no two owe the same. */
  predicate DebtsOk(s: State) {
    && (forall w :: w in s.uncounted ==> s.uncounted[w] < |s.accepted|)
    && forall v, w :: v in s.uncounted && w in s.uncounted && s.uncounted[v] == s.uncounted[w] ==> v == w
  }

  /** The channel holds at most 1024 messages. */
  predicate QueueOk(s: State) {
    |s.queue| <= CAPACITY
  }

  predicate CountersOk(s: State) {
    && s.issued + |s.uncounted| == |s.accepted|
    && s.completed + (if s.consumer.Counting? then |s.consumer.batch| else 0) == |Flatten(s.acked)|
    && (s.consumer.Counting? ==> |s.acked| > 0 && s.acked[|s.acked| - 1] == s.consumer.batch)
    && (s.consumer.Exited? ==> s.closed && s.queue == [])
  }

  /**
   `log` is `bs` with every batch sent at least once and repeated only right after itself:
   what a broker sees of a sender that retries one batch until it is acknowledged.
   */
  ghost predicate Stutters(log: seq<Batch>, bs: seq<Batch>) {
    if bs == [] then log == []
    else exists n :: 0 <= n < |log| && Stutters(log[..n], bs[..|bs| - 1]) && AllEqual(log[n..], bs[|bs| - 1])
  }

  predicate AllEqual(log: seq<Batch>, b: Batch) {
    forall i :: 0 <= i < |log| ==> log[i] == b
  }

  /** The broker's log is the acknowledged batches, stuttering, then attempts at the current one. */
  ghost predicate BrokerAt(s: State, n: int) {
    && 0 <= n <= |s.broker|
    && Stutters(s.broker[..n], s.acked)
    && (if s.consumer.Sending? then AllEqual(s.broker[n..], s.consumer.batch) else n == |s.broker|)
  }

  ghost predicate BrokerOk(s: State) {
    exists n :: BrokerAt(s, n)
  }

  predicate SyncsOk(s: State) {
    forall k :: k in s.syncs ==>
      && s.syncs[k].target + s.syncs[k].racing == s.syncs[k].seen <= |s.accepted|
      && (s.syncs[k].returned ==> s.syncs[k].target <= s.completed)
  }

  ghost predicate Inv(s: State) {
    Conserved(s) && QueueOk(s) && BatchesOk(s) && DebtsOk(s) && CountersOk(s) && BrokerOk(s) && SyncsOk(s)
  }

  lemma TakeOne(done: seq<Message>, batch: Batch, queue: seq<Message>)
    requires queue != []
    ensures done + batch + queue == done + (batch + [queue[0]]) + queue[1..]
  {
  }

  lemma FlattenLast(bs: seq<Batch>, b: Batch)
    ensures Flatten(bs + [b]) == Flatten(bs) + b
  {
    assert (bs + [b])[..|bs|] == bs;
  }

  lemma ConservedByTake(s: State, e: Event)
    requires Conserved(s) && Enabled(s, e) && (e.First? || e.More?)
    ensures Conserved(Apply(s, e))
  {
    TakeOne(Flatten(s.acked), InHand(s.consumer), s.queue);
    assert InHand(Apply(s, e).consumer) == InHand(s.consumer) + [s.queue[0]];
  }

  lemma ConservedByAck(s: State)
    requires Conserved(s) && Enabled(s, SendOk)
    ensures Conserved(Apply(s, SendOk))
  {
    var done, batch := Flatten(s.acked), s.consumer.batch;
    FlattenLast(s.acked, batch);
    assert done + batch + s.queue == done + batch + [] + s.queue;
  }

  lemma ConservedByEnqueue(s: State, writer: nat, msg: Message)
    requires Conserved(s) && Enabled(s, Enqueue(writer, msg))
    ensures Conserved(Apply(s, Enqueue(writer, msg)))
  {
    var taken := Flatten(s.acked) + InHand(s.consumer);
    assert taken + s.queue + [msg] == taken + (s.queue + [msg]);
  }

  lemma ConservedStep(s: State, e: Event)
    requires Conserved(s) && Enabled(s, e)
    ensures Conserved(Apply(s, e))
  {
    if e.First? || e.More? {
      ConservedByTake(s, e);
    } else if e.SendOk? {
      ConservedByAck(s);
    } else if e.Enqueue? {
      ConservedByEnqueue(s, e.writer, e.msg);
    }
  }

  lemma BatchesStep(s: State, e: Event)
    requires BatchesOk(s) && Enabled(s, e)
    ensures BatchesOk(Apply(s, e))
  {
    if e.More? {
      var b := s.consumer.batch + [s.queue[0]];
      assert b[..|b| - 1] == s.consumer.batch;
    }
  }

  lemma CountersByAck(s: State)
    requires CountersOk(s) && Enabled(s, SendOk)
    ensures CountersOk(Apply(s, SendOk))
  {
    FlattenLast(s.acked, s.consumer.batch);
  }

  lemma OneMoreDebt(debts: map<nat, nat>, writer: nat, i: nat)
    requires writer !in debts
    ensures |debts[writer := i]| == |debts| + 1
  {
    assert debts[writer := i].Keys == debts.Keys + {writer};
  }

  lemma OneDebtLess(debts: map<nat, nat>, writer: nat)
    requires writer in debts
    ensures |debts - {writer}| == |debts| - 1
  {
    assert (debts - {writer}).Keys == debts.Keys - {writer};
  }

  lemma CountersByWriter(s: State, e: Event)
    requires CountersOk(s) && Enabled(s, e) && (e.Enqueue? || e.Count?)
    ensures CountersOk(Apply(s, e))
  {
    if e.Enqueue? {
      OneMoreDebt(s.uncounted, e.writer, |s.accepted|);
    } else {
      OneDebtLess(s.uncounted, e.writer);
    }
  }

  lemma CountersStep(s: State, e: Event)
    requires CountersOk(s) && Enabled(s, e)
    ensures CountersOk(Apply(s, e))
  {
    if e.SendOk? {
      CountersByAck(s);
    } else if e.Enqueue? || e.Count? {
      CountersByWriter(s, e);
    }
  }

  lemma QueueStep(s: State, e: Event)
    requires QueueOk(s) && Enabled(s, e)
    ensures QueueOk(Apply(s, e))
  {
  }

  lemma DebtsStep(s: State, e: Event)
    requires DebtsOk(s) && Enabled(s, e)
    ensures DebtsOk(Apply(s, e))
  {
  }

  lemma BrokerAcks(log: seq<Batch>, n: nat, acked: seq<Batch>, batch: Batch)
    requires n <= |log| && Stutters(log[..n], acked) && AllEqual(log[n..], batch)
    ensures Stutters(log + [batch], acked + [batch])
  {
    var log', acked' := log + [batch], acked + [batch];
    assert log'[..n] == log[..n] && log'[n..] == log[n..] + [batch];
    assert acked'[..|acked'| - 1] == acked;
    assert AllEqual(log'[n..], batch);
  }

  lemma BrokerUnmoved(s: State, s': State, n: int)
    requires BrokerAt(s, n)
    requires s'.broker == s.broker && s'.acked == s.acked
    requires if s.consumer.Sending? then s'.consumer == s.consumer else true
    ensures BrokerAt(s', n)
  {
  }

  lemma BrokerRetries(s: State, n: int, reached: bool)
    requires BrokerAt(s, n) && s.consumer.Sending?
    ensures BrokerAt(Apply(s, SendFails(reached)), n)
  {
    if reached {
      var longer := s.broker + [s.consumer.batch];
      assert longer[..n] == s.broker[..n];
      assert longer[n..] == s.broker[n..] + [s.consumer.batch];
    }
  }

  lemma BrokerAcknowledges(s: State, n: int)
    requires BrokerAt(s, n) && s.consumer.Sending?
    ensures BrokerAt(Apply(s, SendOk), |s.broker| + 1)
  {
    BrokerAcks(s.broker, n, s.acked, s.consumer.batch);
    var longer := s.broker + [s.consumer.batch];
    assert longer[..|s.broker| + 1] == longer;
  }

  lemma BrokerStep(s: State, e: Event)
    requires BrokerOk(s) && Enabled(s, e)
    ensures BrokerOk(Apply(s, e))
  {
    var n :| BrokerAt(s, n);
    if e.SendOk? {
      BrokerAcknowledges(s, n);
    } else if e.SendFails? {
      BrokerRetries(s, n, e.reached);
    } else {
      BrokerUnmoved(s, Apply(s, e), n);
    }
  }

  lemma SyncsStep(s: State, e: Event)
    requires SyncsOk(s) && CountersOk(s) && Enabled(s, e)
    ensures SyncsOk(Apply(s, e))
  {
  }

  lemma {:induction false} RunKeepsInv(es: seq<Event>)
    requires Run(es)
    ensures Inv(Final(es))
  {
    if es == [] {
      assert BrokerAt(EMPTY, 0);
    } else {
      var s, e := Final(es[..|es| - 1]), es[|es| - 1];
      RunKeepsInv(es[..|es| - 1]);
      ConservedStep(s, e);
      BatchesStep(s, e);
      QueueStep(s, e);
      DebtsStep(s, e);
      CountersStep(s, e);
      BrokerStep(s, e);
      SyncsStep(s, e);
    }
  }

  /**
   Conservation and order in every reachable state, despite retries: acknowledged batches,
   the batch in hand and the queue are the accepted messages in order; the broker saw each
   acknowledged batch at least once, in order, each repeated only right after itself, and
   after them nothing but attempts at the batch being sent; `completed` never runs ahead of
   the acknowledgements; a batch was below 256 KiB before its last message, and at most 1024
   messages are queued.
   */
  lemma NothingLostOrReordered(es: seq<Event>)
    requires Run(es)
    ensures
      var s := Final(es);
      && s.accepted == Flatten(s.acked) + InHand(s.consumer) + s.queue
      && s.completed <= |Flatten(s.acked)|
      && (exists n :: BrokerAt(s, n))
      && (!s.consumer.Sending? ==> Stutters(s.broker, s.acked))
      && |s.queue| <= 1024
      && forall i :: 0 <= i < |s.acked| ==>
           s.acked[i] != [] && (|s.acked[i]| == 1 || Size(s.acked[i][..|s.acked[i]| - 1]) < 256 * 1024)
  {
    RunKeepsInv(es);
    var s := Final(es);
    var n :| BrokerAt(s, n);
    assert n == |s.broker| ==> s.broker[..n] == s.broker;
  }

  lemma {:induction false} PrefixRuns(es: seq<Event>, n: nat)
    requires Run(es) && n <= |es|
    ensures Run(es[..n])
  {
    if n == |es| {
      assert es[..n] == es;
    } else {
      PrefixRuns(es[..|es| - 1], n);
      assert es[..|es| - 1][..n] == es[..n];
    }
  }

  lemma EventWasEnabled(es: seq<Event>, i: nat)
    requires Run(es) && i < |es|
    ensures Run(es[..i]) && Enabled(Final(es[..i]), es[i])
    ensures Run(es[..i + 1]) && Final(es[..i + 1]) == Apply(Final(es[..i]), es[i])
  {
    PrefixRuns(es, i + 1);
    assert es[..i + 1][..i] == es[..i];
  }

  /**
   Batches are as large as they can be: in every run, whenever one is sealed it has reached
   256 KiB or has taken every message that was queued, and it is sealed with all of them.
   */
  lemma BatchesAreMaximal(es: seq<Event>, i: nat)
    requires Run(es) && i < |es| && es[i].Seal?
    ensures Run(es[..i]) && Run(es[..i + 1])
    ensures
      var s, s' := Final(es[..i]), Final(es[..i + 1]);
      && s.consumer.Batching? && s'.consumer == Sending(s.consumer.batch) && s'.queue == s.queue
      && (s.queue == [] || Size(s.consumer.batch) >= 256 * 1024)
  {
    EventWasEnabled(es, i);
  }

  /** The consumer ends only when the sink is closed and everything accepted is acknowledged and counted. */
  lemma ExitMeansDrained(es: seq<Event>)
    requires Run(es) && Final(es).consumer.Exited?
    ensures
      var s := Final(es);
      s.closed && s.queue == [] && Flatten(s.acked) == s.accepted && s.completed == |s.accepted|
  {
    RunKeepsInv(es);
  }

  // ----- what Sync guarantees -----

  lemma ReturnedSyncIsCovered(es: seq<Event>, call: nat)
    requires Run(es) && call in Final(es).syncs && Final(es).syncs[call].returned
    ensures
      var s, c := Final(es), Final(es).syncs[call];
      && c.racing <= c.seen <= |s.accepted|
      && s.accepted[..c.seen - c.racing] <= Flatten(s.acked)
  {
    RunKeepsInv(es);
    var s, c := Final(es), Final(es).syncs[call];
    var n := c.seen - c.racing;
    assert n <= |Flatten(s.acked)|;
    assert Flatten(s.acked)[..n] == s.accepted[..n];
  }

  /** No step changes what a call saw when it loaded the counter, or what had been accepted. */
  lemma SawStep(s: State, e: Event, call: nat)
    requires call in s.syncs && Enabled(s, e)
    ensures
      var s' := Apply(s, e);
      && call in s'.syncs
      && s'.syncs[call].(returned := false) == s.syncs[call].(returned := false)
      && s.accepted <= s'.accepted
  {
  }

  lemma {:induction false} SyncSaw(es: seq<Event>, more: seq<Event>, call: nat)
    requires Run(es) && Run(es + [SyncLoad(call)] + more)
    ensures
      var s, s' := Final(es), Final(es + [SyncLoad(call)] + more);
      && call in s'.syncs
      && s'.syncs[call].(returned := false) == SyncCall(s.issued, |s.accepted|, |s.uncounted|, false)
      && s.accepted <= s'.accepted
    decreases |more|
  {
    var all := es + [SyncLoad(call)] + more;
    if more == [] {
      assert all[..|all| - 1] == es;
    } else {
      var before := es + [SyncLoad(call)] + more[..|more| - 1];
      assert all[..|all| - 1] == before;
      SyncSaw(es, more[..|more| - 1], call);
      SawStep(Final(before), more[|more| - 1], call);
    }
  }

  /**
   The guarantee of Sync, for every interleaving: of the messages accepted before it loaded
   the counter, all have been acknowledged when it has returned, except at most the last p,
   where p writers stood between enqueue and increment at the load. With p = 0 all have been.
   */
  lemma SyncGuarantee(es: seq<Event>, more: seq<Event>, call: nat)
    requires Run(es) && Run(es + [SyncLoad(call)] + more)
    requires
      var s' := Final(es + [SyncLoad(call)] + more);
      call in s'.syncs && s'.syncs[call].returned
    ensures
      var s, s' := Final(es), Final(es + [SyncLoad(call)] + more);
      var p := |s.uncounted|;
      && p <= |s.accepted|
      && s.accepted[..|s.accepted| - p] <= Flatten(s'.acked)
      && (p == 0 ==> s.accepted <= Flatten(s'.acked))
  {
    SyncSaw(es, more, call);
    ReturnedSyncIsCovered(es + [SyncLoad(call)] + more, call);
    var s, s' := Final(es), Final(es + [SyncLoad(call)] + more);
    var n := |s.accepted| - |s.uncounted|;
    assert s.accepted[..n] == s'.accepted[..n];
    assert n == |s.accepted| ==> s.accepted[..n] == s.accepted;
  }

  // ----- the bound is the best possible -----

  /** The first n writers owe the first n messages. */
  function Owing(n: nat): (r: map<nat, nat>)
    ensures |r| == n && forall i: nat :: i in r <==> i < n
    ensures forall i :: i in r ==> r[i] == i
  {
    if n == 0 then map[] else Owing(n - 1)[n - 1 := n - 1]
  }

  function Empties(n: nat): (b: Batch)
    ensures |b| == n && Size(b) == 0
  {
    if n == 0 then [] else
      var b := Empties(n - 1) + [[]];
      assert b[..|b| - 1] == Empties(n - 1);
      b
  }

  lemma SealOne(es: seq<Event>, writer: nat, msg: Message) returns (es': seq<Event>)
    requires Run(es)
    requires
      var s := Final(es);
      !s.closed && s.consumer == Receiving && s.queue == [] && writer !in s.uncounted
    ensures Run(es')
    ensures
      var s := Final(es);
      Final(es') == s.(accepted := s.accepted + [msg], uncounted := s.uncounted[writer := |s.accepted|],
                       consumer := Sending([msg]))
  {
    es' := Extend(es, Enqueue(writer, msg));
    assert Final(es').queue == [msg];
    es' := Extend(es', First);
    assert Final(es').queue == [];
    es' := Extend(es', Seal);
  }

  /** One message goes through the sink while its writer stays uncounted. */
  lemma PassUncounted(es: seq<Event>, writer: nat, msg: Message) returns (es': seq<Event>)
    requires Run(es)
    requires
      var s := Final(es);
      !s.closed && s.consumer == Receiving && s.queue == [] && writer !in s.uncounted
    ensures Run(es')
    ensures
      var s := Final(es);
      Final(es') == s.(accepted := s.accepted + [msg], uncounted := s.uncounted[writer := |s.accepted|],
                       acked := s.acked + [[msg]], broker := s.broker + [[msg]], completed := s.completed + 1)
  {
    es' := SealOne(es, writer, msg);
    es' := Extend(es', SendOk);
    es' := Extend(es', Add);
  }

  lemma {:induction false} UncountedPrefix(p: nat) returns (es: seq<Event>)
    ensures Run(es)
    ensures
      var s := Final(es);
      && s.queue == [] && !s.closed && s.issued == 0 && s.completed == p && s.consumer == Receiving
      && s.uncounted == Owing(p) && s.syncs == map[] && |s.accepted| == p && |Flatten(s.acked)| == p
  {
    if p == 0 {
      es := [];
    } else {
      var shorter := UncountedPrefix(p - 1);
      es := PassUncounted(shorter, p - 1, []);
      FlattenLast(Final(shorter).acked, [[]]);
    }
  }

  lemma WriteCounted(es: seq<Event>, writer: nat) returns (es': seq<Event>)
    requires Run(es)
    requires var s := Final(es); !s.closed && s.queue == [] && writer !in s.uncounted
    ensures Run(es')
    ensures
      var s := Final(es);
      Final(es') == s.(accepted := s.accepted + [[]], issued := s.issued + 1, queue := [[]])
  {
    var s := Final(es);
    es' := Extend(es, Enqueue(writer, []));
    assert Final(es').uncounted - {writer} == s.uncounted;
    es' := Extend(es', Count(writer));
  }

  /** A writer writes one empty message and counts it; the consumer takes it into its batch. */
  lemma TakeCounted(es: seq<Event>, writer: nat, j: nat) returns (es': seq<Event>)
    requires Run(es)
    requires
      var s := Final(es);
      && !s.closed && s.queue == [] && writer !in s.uncounted
      && s.consumer == (if j == 0 then Receiving else Batching(Empties(j)))
    ensures Run(es')
    ensures
      var s := Final(es);
      Final(es') == s.(accepted := s.accepted + [[]], issued := s.issued + 1, consumer := Batching(Empties(j + 1)))
  {
    es' := WriteCounted(es, writer);
    assert Empties(j + 1) == Empties(j) + [[]];
    es' := Extend(es', if j == 0 then First else More);
  }

  lemma {:induction false} CountedSuffix(p: nat, j: nat) returns (es: seq<Event>)
    ensures Run(es)
    ensures
      var s := Final(es);
      && s.queue == [] && !s.closed && s.issued == j && s.completed == p
      && s.consumer == (if j == 0 then Receiving else Batching(Empties(j)))
      && s.uncounted == Owing(p) && s.syncs == map[] && |s.accepted| == p + j && |Flatten(s.acked)| == p
    decreases j
  {
    if j == 0 {
      es := UncountedPrefix(p);
    } else {
      es := CountedSuffix(p, j - 1);
      es := TakeCounted(es, p, j - 1);
    }
  }

  /**
   For every number p of racing writers there is a run in which Sync returns although the
   last p messages were counted before it loaded the counter and none of them is acknowledged.
   */
  lemma GuaranteeIsTight(p: nat) returns (es: seq<Event>)
    ensures Run(es) && Run(es + [SyncLoad(0)] + [SyncReturn(0)])
    ensures
      var s, s' := Final(es), Final(es + [SyncLoad(0)] + [SyncReturn(0)]);
      && |s.uncounted| == p <= |s.accepted|
      && 0 in s'.syncs && s'.syncs[0].returned
      && |Flatten(s'.acked)| == |s.accepted| - p
      && forall i :: |s.accepted| - p <= i < |s.accepted| ==> Counted(s, i)
  {
    es := CountedSuffix(p, p);
    var loaded := Extend(es, SyncLoad(0));
    var returned := Extend(loaded, SyncReturn(0));
  }

  /** Message i was counted before the call loaded the counter and is unacknowledged when it has returned. */
  ghost predicate MissesCounted(es: seq<Event>, call: nat, more: seq<Event>, i: nat) {
    && Run(es) && Run(es + [SyncLoad(call)] + more) && Counted(Final(es), i)
    && var s' := Final(es + [SyncLoad(call)] + more);
       call in s'.syncs && s'.syncs[call].returned && i >= |Flatten(s'.acked)|
  }

  /** Sync can miss a message whose Write had counted it exactly when some other writer stood uncounted at the load. */
  lemma SyncMissesIff(p: nat)
    ensures
      (exists es: seq<Event>, call: nat, more: seq<Event>, i: nat ::
         MissesCounted(es, call, more, i) && |Final(es).uncounted| == p)
      <==> p > 0
  {
    if p > 0 {
      var es := GuaranteeIsTight(p);
      assert MissesCounted(es, 0, [SyncReturn(0)], |Final(es).accepted| - 1);
    }
    forall es: seq<Event>, call: nat, more: seq<Event>, i: nat
      | MissesCounted(es, call, more, i) && |Final(es).uncounted| == p
      ensures p > 0
    {
      SyncGuarantee(es, more, call);
    }
  }

  // ----- Sync can return -----

  predicate ConsumerStep(e: Event) {
    e.First? || e.More? || e.Seal? || e.SendOk? || e.Add?
  }

  /** How many steps the consumer is from having acknowledged and counted everything accepted so far. */
  function Work(s: State): nat {
    4 * |s.queue| + match s.consumer
                    case Receiving => 0
                    case Batching(_) => 3
                    case Sending(_) => 2
                    case Counting(_) => 1
                    case Exited => 0
  }

  /** While anything accepted is uncounted by the consumer, a successful step of it brings the end nearer. */
  lemma ConsumerCanStep(s: State) returns (e: Event)
    requires Inv(s) && s.completed < |s.accepted|
    ensures ConsumerStep(e) && Enabled(s, e)
    ensures Work(Apply(s, e)) < Work(s)
    ensures Apply(s, e).syncs == s.syncs && Apply(s, e).accepted == s.accepted
  {
    match s.consumer
    case Receiving => e := First;
    case Batching(batch) => e := if Size(batch) < BATCH_LIMIT && s.queue != [] then More else Seal;
    case Sending(_) => e := SendOk;
    case Counting(_) => e := Add;
  }

  lemma {:induction false} ConsumerCatchesUp(es: seq<Event>) returns (more: seq<Event>)
    requires Run(es)
    ensures Run(es + more) && |more| <= Work(Final(es))
    ensures forall i :: 0 <= i < |more| ==> ConsumerStep(more[i])
    ensures
      var s, s' := Final(es), Final(es + more);
      s'.syncs == s.syncs && s'.accepted == s.accepted && s'.completed >= |s.accepted|
    decreases Work(Final(es))
  {
    RunKeepsInv(es);
    if Final(es).completed >= |Final(es).accepted| {
      more := [];
      assert es + more == es;
    } else {
      var e := ConsumerCanStep(Final(es));
      var next := Extend(es, e);
      var rest := ConsumerCatchesUp(next);
      more := [e] + rest;
      assert es + more == next + rest;
    }
  }

  /**
   Sync is never stuck: from every reachable state, whatever the writers have left unfinished,
   the consumer's steps alone, with no send failing, bring a pending call to its return.
   */
  lemma SyncCanReturn(es: seq<Event>, call: nat) returns (more: seq<Event>)
    requires Run(es) && call in Final(es).syncs && !Final(es).syncs[call].returned
    ensures Run(es + more + [SyncReturn(call)]) && |more| <= Work(Final(es))
    ensures forall i :: 0 <= i < |more| ==> ConsumerStep(more[i])
    ensures
      var s' := Final(es + more + [SyncReturn(call)]);
      call in s'.syncs && s'.syncs[call].returned
  {
    RunKeepsInv(es);
    more := ConsumerCatchesUp(es);
    var done := Extend(es + more, SyncReturn(call));
  }
}
