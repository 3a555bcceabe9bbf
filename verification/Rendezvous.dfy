/**
 The rendezvous between clients and the reset server. A client takes the sender's mutex,
 builds a request packet on its stack, sends the packet's address and sleeps on a futex in
 it; the server reads the packet through the bare address, stores the outcome, marks the
 packet complete and wakes the address. Any number of clients, any interleaving; stack
 addresses are reused as soon as their owner has returned.
 */
module Rendezvous {
  import opened Common

  type Client = nat
  type Addr = nat
  type Id = nat  // one per request ever made, to tell reused addresses apart

  datatype Place =
    | Idle
    | WantLock
    | Locked
    | Check(addr: Addr, id: Id)     // about to load the completion word
    | Sleepy(addr: Addr, id: Id)    // saw zero, about to call futex wait
    | Asleep(addr: Addr, id: Id)
    | Reading(addr: Addr, id: Id)   // saw one, about to load the outcome
    | Unlocking(id: Id, result: bool)

  datatype Packet = Packet(id: Id, completion: bool, success: bool)

  datatype Server =
    | Polling
    | Handling(addr: Addr)                 // about to read the request
    | Storing(addr: Addr, success: bool)   // about to store the outcome
    | Completing(addr: Addr)               // about to store the completion word
    | Waking(addr: Addr)                   // about to call futex wake

  datatype State = State(
    place: map<Client, Place>,             // clients not in the map are idle
    holder: Option<Client>,                // of the sender's mutex
    memory: map<Addr, Packet>,             // live packets
    queue: seq<Addr>,                      // the datagram socket
    server: Server,
    nextId: Id,
    received: multiset<Id>,                // packets the server took from the socket
    completed: multiset<Id>,               // packets the server marked complete
    decided: map<Id, bool>,                // the outcome the server stored, if it stored one
    answered: map<Id, bool>,               // what each client returned
    fault: bool)                           // a packet was accessed after its owner had returned

  datatype Event =
    | Call(c: Client)
    | Lock(c: Client)
    | Send(c: Client, at: Addr)
    | Load(c: Client)
    | FutexWait(c: Client)
    | Spurious(c: Client)
    | Return(c: Client)
    | Unlock(c: Client)
    | Receive
    | Reject                // unknown pin, already in reset, or ioctl error: no outcome is stored
    | Decide(success: bool)
    | StoreSuccess
    | Complete
    | Wake(who: Option<Client>)

  const START := State(map[], None, map[], [], Polling, 0, multiset{}, multiset{}, map[], map[], false)

  function At(s: State, c: Client): Place {
    if c in s.place then s.place[c] else Idle
  }

  predicate Enabled(s: State, e: Event) {
    match e
    case Call(c) => At(s, c) == Idle
    case Lock(c) => At(s, c) == WantLock && s.holder == None
    case Send(c, at) => At(s, c) == Locked && at !in s.memory
    case Load(c) => At(s, c).Check?
    case FutexWait(c) => At(s, c).Sleepy?
    case Spurious(c) => At(s, c).Asleep?
    case Return(c) => At(s, c).Reading?
    case Unlock(c) => At(s, c).Unlocking?
    case Receive => s.server == Polling && s.queue != []
    case Reject => s.server.Handling?
    case Decide(_) => s.server.Handling?
    case StoreSuccess => s.server.Storing?
    case Complete => s.server.Completing?
    case Wake(who) =>
      && s.server.Waking?
      && (who.Some? ==> At(s, who.value).Asleep? && At(s, who.value).addr == s.server.addr)
      // One sleeper on the address is woken, if there is any.
      && (who.None? ==> forall c :: c in s.place && s.place[c].Asleep? ==> s.place[c].addr != s.server.addr)
  }

  function Move(s: State, c: Client, p: Place): State {
    s.(place := s.place[c := p])
  }

  /** A load or store through an address; it faults when no packet lives there. */
  function Touch(s: State, at: Addr): State {
    s.(fault := s.fault || at !in s.memory)
  }

  function Apply(s: State, e: Event): State
    requires Enabled(s, e)
  {
    match e
    case Call(c) => Move(s, c, WantLock)
    case Lock(c) => Move(s, c, Locked).(holder := Some(c))
    case Send(c, at) =>
      Move(s, c, Check(at, s.nextId)).(memory := s.memory[at := Packet(s.nextId, false, false)],
                                       queue := s.queue + [at], nextId := s.nextId + 1)
    case Load(c) => Touch(Move(s, c, AfterLoad(s, At(s, c))), At(s, c).addr)
    case FutexWait(c) => Touch(Move(s, c, AfterWait(s, At(s, c))), At(s, c).addr)
    case Spurious(c) => Move(s, c, Check(At(s, c).addr, At(s, c).id))
    case Return(c) => Finish(Touch(s, At(s, c).addr), c, At(s, c).addr, At(s, c).id)
    case Unlock(c) => Move(s, c, Idle).(holder := None)
    case Receive => Take(s, s.queue[0])
    case Reject => Touch(s.(server := Completing(s.server.addr)), s.server.addr)
    case Decide(success) => Touch(s.(server := Storing(s.server.addr, success)), s.server.addr)
    case StoreSuccess => Touch(Store(s, s.server.addr, s.server.success), s.server.addr)
    case Complete => Touch(MarkComplete(s, s.server.addr), s.server.addr)
    case Wake(who) =>
      if who.None? then s.(server := Polling)
      else Move(s, who.value, Check(At(s, who.value).addr, At(s, who.value).id)).(server := Polling)
  }

  predicate IsComplete(s: State, at: Addr) {
    at in s.memory && s.memory[at].completion
  }

  function AfterLoad(s: State, p: Place): Place
    requires p.Check?
  {
    if IsComplete(s, p.addr) then Reading(p.addr, p.id) else Sleepy(p.addr, p.id)
  }

  /** The kernel compares and goes to sleep in one step. */
  function AfterWait(s: State, p: Place): Place
    requires p.Sleepy?
  {
    if IsComplete(s, p.addr) then Check(p.addr, p.id) else Asleep(p.addr, p.id)
  }

  /** Read the outcome and leave the closure: the packet is gone. */
  function Finish(s: State, c: Client, at: Addr, id: Id): State {
    var result := at in s.memory && s.memory[at].success;
    Move(s, c, Unlocking(id, result)).(memory := s.memory - {at}, answered := s.answered[id := result])
  }

  function Take(s: State, at: Addr): State
    requires s.queue != []
  {
    s.(queue := s.queue[1..], server := Handling(at),
       received := if at in s.memory then s.received + multiset{s.memory[at].id} else s.received)
  }

  function Store(s: State, at: Addr, success: bool): State {
    if at !in s.memory then s.(server := Completing(at))
    else s.(server := Completing(at), memory := s.memory[at := s.memory[at].(success := success)],
            decided := s.decided[s.memory[at].id := success])
  }

  function MarkComplete(s: State, at: Addr): State {
    if at !in s.memory then s.(server := Waking(at))
    else s.(server := Waking(at), memory := s.memory[at := s.memory[at].(completion := true)],
            completed := s.completed + multiset{s.memory[at].id})
  }

  /** The state after these events, if each was enabled in its turn. */
  function Exec(es: seq<Event>): Option<State> {
    if es == [] then Some(START)
    else
      var before := Exec(es[..|es| - 1]);
      if before.Some? && Enabled(before.value, es[|es| - 1]) then Some(Apply(before.value, es[|es| - 1])) else None
  }

  predicate Run(es: seq<Event>) {
    Exec(es).Some?
  }

  function Final(es: seq<Event>): State
    requires Run(es)
  {
    Exec(es).value
  }

  // ----- what every run keeps -----

  /** Inside the mutex. */
  predicate Inside(p: Place) {
    !p.Idle? && !p.WantLock?
  }

  /** Inside the closure, with a packet on the stack. */
  predicate HasPacket(p: Place) {
    p.Check? || p.Sleepy? || p.Asleep? || p.Reading?
  }

  /** The address that the server holds and will read or write through. */
  function InUse(v: Server): set<Addr> {
    if v.Handling? || v.Storing? || v.Completing? then {v.addr} else {}
  }

  /** Where the client is that holds the mutex. */
  function Owner(s: State): Place {
    if s.holder.Some? then At(s, s.holder.value) else Idle
  }

  /** The mutex excludes: exactly its holder is inside. */
  ghost predicate MutexOk(s: State) {
    && (forall c :: c in s.place && Inside(s.place[c]) ==> s.holder == Some(c))
    && (s.holder.Some? ==> Inside(At(s, s.holder.value)))
  }

  /** Nobody has a packet: nothing is in flight. */
  ghost predicate Quiet(s: State) {
    s.memory == map[] && s.queue == [] && InUse(s.server) == {}
  }

  /** The one live packet is in the socket, with the server, or complete. */
  ghost predicate Placed(s: State, at: Addr, pkt: Packet) {
    if pkt.completion then s.queue == [] && InUse(s.server) == {}
    else if s.queue == [] then InUse(s.server) == {at}
    else s.queue == [at] && InUse(s.server) == {}
  }

  /** The counters and the outcome of the live packet say how far it has come. */
  ghost predicate Accounted(s: State, at: Addr, pkt: Packet) {
    && s.received[pkt.id] == (if s.queue == [] then 1 else 0)
    && s.completed[pkt.id] == (if pkt.completion then 1 else 0)
    && (if pkt.id in s.decided
        then s.decided[pkt.id] == pkt.success && (pkt.completion || s.server == Completing(at))
        else !pkt.success)
  }

  /** What holds of the packet of a client at `p`, or of its absence. */
  ghost predicate FlightOk(s: State, p: Place) {
    if HasPacket(p)
    then
      && s.memory.Keys == {p.addr}
      && var pkt := s.memory[p.addr];
      && pkt.id == p.id
      && Placed(s, p.addr, pkt)
      && Accounted(s, p.addr, pkt)
      && (p.Reading? ==> pkt.completion)
      // No lost wakeup: a sleeper whose packet is complete is about to be woken.
      && (p.Asleep? && pkt.completion ==> s.server == Waking(p.addr))
    else Quiet(s)
  }

  /** Every request that is over was received and completed exactly once, and answered as decided. */
  ghost predicate FinishedOk(s: State, p: Place) {
    forall id: Id :: id < s.nextId && !(HasPacket(p) && p.id == id) ==>
      && s.received[id] == 1 && s.completed[id] == 1
      && id in s.answered && s.answered[id] == (id in s.decided && s.decided[id])
  }

  ghost predicate IdsOk(s: State, p: Place) {
    && (HasPacket(p) ==> p.id < s.nextId)
    && (forall id: Id :: id >= s.nextId ==> s.received[id] == 0 && s.completed[id] == 0 && id !in s.decided)
  }

  ghost predicate Inv(s: State) {
    !s.fault && MutexOk(s) && FlightOk(s, Owner(s)) && FinishedOk(s, Owner(s)) && IdsOk(s, Owner(s))
  }

  predicate ByServer(e: Event) {
    e.Receive? || e.Reject? || e.Decide? || e.StoreSuccess? || e.Complete? || e.Wake?
  }

  lemma MutexStep(s: State, e: Event)
    requires MutexOk(s) && Enabled(s, e)
    ensures MutexOk(Apply(s, e))
  {
    if ByServer(e) {
      MutexServerStep(s, e);
    } else {
      MutexClientStep(s, e);
    }
  }

  /** The server never moves a client, except that it wakes one inside the mutex. */
  lemma ServerMovesNobody(s: State, e: Event)
    requires Enabled(s, e) && ByServer(e) && (e.Wake? ==> e.who.None?)
    ensures Apply(s, e).place == s.place && Apply(s, e).holder == s.holder
  {
    match e {
      case Receive => assert Apply(s, e) == Take(s, s.queue[0]);
      case StoreSuccess => assert Apply(s, e) == Touch(Store(s, s.server.addr, s.server.success), s.server.addr);
      case Complete => assert Apply(s, e) == Touch(MarkComplete(s, s.server.addr), s.server.addr);
      case Wake(_) => assert Apply(s, e) == s.(server := Polling);
      case _ =>
    }
  }

  lemma MutexServerStep(s: State, e: Event)
    requires MutexOk(s) && Enabled(s, e) && ByServer(e)
    ensures MutexOk(Apply(s, e))
  {
    if e.Wake? && e.who.Some? {
      var s' := Apply(s, e);
      assert s'.place == s.place[e.who.value := At(s', e.who.value)];
    } else {
      ServerMovesNobody(s, e);
    }
  }

  lemma MutexClientStep(s: State, e: Event)
    requires MutexOk(s) && Enabled(s, e) && !ByServer(e)
    ensures MutexOk(Apply(s, e))
  {
    var s' := Apply(s, e);
    assert s'.place == s.place[e.c := At(s', e.c)];
  }

  /** Steps of the client inside the mutex move the owner; the others leave it where it was. */
  predicate ByOwner(e: Event) {
    e.Lock? || e.Send? || e.Load? || e.FutexWait? || e.Spurious? || e.Return? || e.Unlock?
  }

  lemma ActorIsOwner(s: State, e: Event)
    requires MutexOk(s) && Enabled(s, e) && ByOwner(e) && !e.Lock?
    ensures s.holder == Some(e.c) && Owner(s) == At(s, e.c)
  {
    assert Inside(At(s, e.c));
  }

  lemma OwnerStep(s: State, e: Event)
    requires Inv(s) && Enabled(s, e) && ByOwner(e)
    ensures
      var s' := Apply(s, e);
      !s'.fault && FlightOk(s', Owner(s')) && FinishedOk(s', Owner(s')) && IdsOk(s', Owner(s'))
  {
    var s' := Apply(s, e);
    if !e.Lock? {
      ActorIsOwner(s, e);
    }
    if e.Send? {
      assert s'.memory == map[e.at := Packet(s.nextId, false, false)];
      assert s'.queue == [e.at];
    } else if e.Return? {
      assert s'.memory == map[];
    }
  }

  lemma ReceiveStep(s: State, e: Event)
    requires Inv(s) && Enabled(s, e) && (e.Receive? || e.Reject? || e.Decide?)
    ensures
      var s' := Apply(s, e);
      !s'.fault && FlightOk(s', Owner(s')) && FinishedOk(s', Owner(s')) && IdsOk(s', Owner(s'))
  {
    ServerMovesNobody(s, e);
  }

  lemma StoreStep(s: State, e: Event)
    requires Inv(s) && Enabled(s, e) && (e.StoreSuccess? || e.Complete?)
    ensures
      var s' := Apply(s, e);
      !s'.fault && FlightOk(s', Owner(s')) && FinishedOk(s', Owner(s')) && IdsOk(s', Owner(s'))
  {
    ServerMovesNobody(s, e);
    assert InUse(s.server) == {s.server.addr} && HasPacket(Owner(s)) && Owner(s).addr == s.server.addr;
  }

  lemma WakeStep(s: State, e: Event)
    requires Inv(s) && Enabled(s, e) && e.Wake?
    ensures
      var s' := Apply(s, e);
      !s'.fault && FlightOk(s', Owner(s')) && FinishedOk(s', Owner(s')) && IdsOk(s', Owner(s'))
  {
    if e.who.Some? {
      assert Inside(At(s, e.who.value));
    }
  }

  lemma InvStep(s: State, e: Event)
    requires Inv(s) && Enabled(s, e)
    ensures Inv(Apply(s, e))
  {
    MutexStep(s, e);
    if ByOwner(e) {
      OwnerStep(s, e);
    } else if e.Wake? {
      WakeStep(s, e);
    } else if e.StoreSuccess? || e.Complete? {
      StoreStep(s, e);
    } else if ByServer(e) {
      ReceiveStep(s, e);
    } else {
      assert e.Call? && At(s, e.c) == Idle && s.holder != Some(e.c);
      assert Owner(Apply(s, e)) == Owner(s);
    }
  }

  lemma {:induction false} RunKeepsInv(es: seq<Event>)
    requires Run(es)
    ensures Inv(Final(es))
  {
    if es != [] {
      RunKeepsInv(es[..|es| - 1]);
      InvStep(Final(es[..|es| - 1]), es[|es| - 1]);
    }
  }

  /**
   Safety in every reachable state: no packet is touched after its owner has returned, at
   most one packet is live and at most one address is in the socket, and the server holds
   an address for reading or writing only while its owner is still inside its closure.
   */
  lemma PacketsAreSafe(es: seq<Event>)
    requires Run(es)
    ensures
      var s := Final(es);
      && !s.fault
      && |s.memory| <= 1 && |s.queue| <= 1
      && forall at :: at in InUse(s.server) || at in s.queue ==>
           at in s.memory && s.holder.Some? && HasPacket(Owner(s)) && Owner(s).addr == at
  {
    RunKeepsInv(es);
    var s := Final(es);
    if HasPacket(Owner(s)) {
      assert |s.memory.Keys| == 1;
    }
  }

  /** The request's packet is still on its client's stack. */
  predicate Live(s: State, id: Id) {
    HasPacket(Owner(s)) && Owner(s).id == id
  }

  /**
   No packet is ever received or completed twice; and every request whose client has left
   its closure was received once, completed once, whichever branch the server took, and
   answered with true exactly when the server had stored true.
   */
  lemma ExactlyOnce(es: seq<Event>, id: Id)
    requires Run(es)
    ensures
      var s := Final(es);
      && s.received[id] <= 1 && s.completed[id] <= s.received[id]
      && (id < s.nextId && !Live(s, id) ==>
            && s.received[id] == 1 && s.completed[id] == 1
            && id in s.answered && s.answered[id] == (id in s.decided && s.decided[id]))
  {
    RunKeepsInv(es);
  }

  // ----- no lost wakeup -----

  /** How many server steps can still come before the server wakes this address. */
  function WakeRank(s: State, at: Addr): nat {
    match s.server
    case Waking(a) => if a == at && IsComplete(s, at) then 1 else 6
    case Polling => 5
    case Handling(_) => 4
    case Storing(_, _) => 3
    case Completing(_) => 2
  }

  predicate SleepsOn(s: State, c: Client, at: Addr) {
    At(s, c).Asleep? && At(s, c).addr == at
  }

  /** While a client sleeps the server always has a step to take. */
  lemma ServerCanStep(s: State, c: Client) returns (e: Event)
    requires Inv(s) && At(s, c).Asleep?
    ensures ByServer(e) && Enabled(s, e)
  {
    assert Inside(At(s, c));
    forall other | other in s.place && s.place[other].Asleep?
      ensures other == c
    {
      assert Inside(At(s, other));
    }
    match s.server {
      case Polling => e := Receive;
      case Handling(_) => e := Reject;
      case Storing(_, _) => e := StoreSuccess;
      case Completing(_) => e := Complete;
      case Waking(a) => e := if SleepsOn(s, c, a) then Wake(Some(c)) else Wake(None);
    }
  }

  /** A sleeper is the owner of the one live packet. */
  lemma SleeperIsOwner(s: State, c: Client)
    requires Inv(s) && At(s, c).Asleep?
    ensures s.holder == Some(c) && Owner(s) == At(s, c)
    ensures !IsComplete(s, At(s, c).addr) && s.queue == [] ==> InUse(s.server) == {At(s, c).addr}
  {
    assert Inside(At(s, c));
  }

  lemma ServerNears(s: State, e: Event, c: Client)
    requires Inv(s) && At(s, c).Asleep? && Enabled(s, e) && ByServer(e)
    ensures
      var s', at := Apply(s, e), At(s, c).addr;
      At(s', c).Asleep? ==> At(s', c) == At(s, c) && WakeRank(s', at) < WakeRank(s, at)
  {
    SleeperIsOwner(s, c);
    if e.Wake? && e.who.Some? {
      SleeperIsOwner(s, e.who.value);
    }
  }

  lemma OthersDoNotDelay(s: State, e: Event, c: Client)
    requires Inv(s) && At(s, c).Asleep? && Enabled(s, e) && !ByServer(e)
    ensures
      var s', at := Apply(s, e), At(s, c).addr;
      At(s', c).Asleep? ==> At(s', c) == At(s, c) && WakeRank(s', at) == WakeRank(s, at)
  {
    SleeperIsOwner(s, c);
    if ByOwner(e) && !e.Lock? {
      ActorIsOwner(s, e);
    }
  }

  /** Whatever anyone does, the sleeper is awake or no farther from its wakeup; a server step brings it nearer. */
  lemma WakeupNears(s: State, e: Event, c: Client)
    requires Inv(s) && At(s, c).Asleep? && Enabled(s, e)
    ensures
      var s', at := Apply(s, e), At(s, c).addr;
      At(s', c).Asleep? ==>
        && At(s', c) == At(s, c)
        && WakeRank(s', at) + (if ByServer(e) then 1 else 0) <= WakeRank(s, at)
  {
    if ByServer(e) {
      ServerNears(s, e, c);
    } else {
      OthersDoNotDelay(s, e, c);
    }
  }

  function ServerSteps(es: seq<Event>): nat {
    if es == [] then 0 else ServerSteps(es[..|es| - 1]) + if ByServer(es[|es| - 1]) then 1 else 0
  }

  /** The client sleeps in every state from here to the end of the run. */
  ghost predicate SleepsThroughout(es: seq<Event>, more: seq<Event>, c: Client) {
    && Run(es + more) && At(Final(es + more), c).Asleep?
    && (more != [] ==> SleepsThroughout(es, more[..|more| - 1], c))
  }

  lemma SplitLast(es: seq<Event>, more: seq<Event>)
    requires more != [] && Run(es + more)
    ensures
      var shorter, e := es + more[..|more| - 1], more[|more| - 1];
      Run(shorter) && Enabled(Final(shorter), e) && Final(es + more) == Apply(Final(shorter), e)
  {
    assert (es + more)[..|es + more| - 1] == es + more[..|more| - 1];
  }

  lemma {:induction false} SleepIsBounded(es: seq<Event>, more: seq<Event>, c: Client)
    requires SleepsThroughout(es, more, c)
    ensures Run(es) && At(Final(es), c).Asleep? && At(Final(es + more), c) == At(Final(es), c)
    ensures
      var at := At(Final(es), c).addr;
      ServerSteps(more) + WakeRank(Final(es + more), at) <= WakeRank(Final(es), at)
  {
    if more == [] {
      assert es + more == es;
    } else {
      SleepIsBounded(es, more[..|more| - 1], c);
      SplitLast(es, more);
      RunKeepsInv(es + more[..|more| - 1]);
      WakeupNears(Final(es + more[..|more| - 1]), more[|more| - 1], c);
    }
  }

  /**
   No lost wakeup: in every run, while a client sleeps, the server always has a step to take,
   and it takes at most five steps before that client is woken.
   */
  lemma NoLostWakeup(es: seq<Event>, more: seq<Event>, c: Client)
    requires SleepsThroughout(es, more, c)
    ensures ServerSteps(more) <= 5
    ensures Run(es + more) && exists e :: ByServer(e) && Enabled(Final(es + more), e)
  {
    SleepIsBounded(es, more, c);
    RunKeepsInv(es + more);
    var e := ServerCanStep(Final(es + more), c);
  }
}
