/**
 The reset service as its callers see it: the rendezvous and the reset server in one system.
 A client asks for a pin; the server takes the packet within its time slice, does to the line
 what the request comes to, and stores the outcome that this had. What a caller is told is
 thereby tied to what happened on its line.
 */
module ResetService {
  import opened Common
  import G = GpioEvents
  import R = Rendezvous

  datatype State = State(
    meet: R.State,
    gpio: G.State,
    history: seq<G.Event>,        // what happened to the lines
    pins: map<R.Id, string>,      // the pin that each request is for
    replied: map<R.Id, int>)      // where in the history its answer is

  datatype Event =
    | Ask(c: R.Client, at: R.Addr, pin: string)  // build a packet and send its address
    | Meet(step: R.Event)                        // another step of a client, or of the server with a packet
    | Line(g: G.Event)                           // the server samples, blinks or releases
    | Answer(g: G.Event)                         // the server deals with the request it has received

  /** This event can be the answer to a request for this pin. */
  predicate ReplyFor(lines: G.Lines, pin: string, e: G.Event) {
    match e
    case Refused(p, _) => p == pin
    case Pushed(fd, _, _, hold) => pin in lines.ext && fd == lines.ext[pin] && hold == G.HOLD
    case Overflow(fd, _, _, hold) => pin in lines.ext && fd == lines.ext[pin] && hold == G.HOLD
    case _ => false
  }

  /** What the rendezvous sees of an answer: only a push has an outcome to store. */
  function Outcome(e: G.Event): R.Event {
    if e.Refused? then R.Reject else R.Decide(e.Pushed?)
  }

  function Init(high: set<G.Fd>): State {
    State(R.START, G.Init(high), [], map[], map[])
  }

  predicate Enabled(lines: G.Lines, s: State, e: Event) {
    match e
    case Ask(c, at, _) => R.Enabled(s.meet, R.Send(c, at))
    case Meet(m) =>
      && R.Enabled(s.meet, m) && !m.Send? && !m.Reject? && !m.Decide?
      && (m.Receive? ==> G.InSlice(s.gpio))
    case Line(g) => s.meet.server == R.Polling && !G.IsReply(g) && G.Enabled(lines, s.gpio, g)
    case Answer(g) =>
      && s.meet.server.Handling? && s.meet.server.addr in s.meet.memory
      && var id := s.meet.memory[s.meet.server.addr].id;
         id in s.pins && ReplyFor(lines, s.pins[id], g) && G.Enabled(lines, s.gpio, g)
  }

  function Apply(lines: G.Lines, s: State, e: Event): State
    requires Enabled(lines, s, e)
  {
    match e
    case Ask(c, at, pin) =>
      s.(meet := R.Apply(s.meet, R.Send(c, at)), pins := s.pins[s.meet.nextId := pin])
    case Meet(m) => s.(meet := R.Apply(s.meet, m))
    case Line(g) => s.(gpio := G.Apply(lines, s.gpio, g), history := s.history + [g])
    case Answer(g) =>
      var id := s.meet.memory[s.meet.server.addr].id;
      State(R.Apply(s.meet, Outcome(g)), G.Apply(lines, s.gpio, g), s.history + [g], s.pins,
            s.replied[id := |s.history|])
  }

  /** The state after these events, if each was enabled in its turn. */
  function Exec(lines: G.Lines, high: set<G.Fd>, es: seq<Event>): Option<State> {
    if es == [] then Some(Init(high))
    else
      var before := Exec(lines, high, es[..|es| - 1]);
      if before.Some? && Enabled(lines, before.value, es[|es| - 1])
      then Some(Apply(lines, before.value, es[|es| - 1]))
      else None
  }

  predicate Run(lines: G.Lines, high: set<G.Fd>, es: seq<Event>) {
    Exec(lines, high, es).Some?
  }

  function Final(lines: G.Lines, high: set<G.Fd>, es: seq<Event>): State
    requires Run(lines, high, es)
  {
    Exec(lines, high, es).value
  }

  // ----- what every run keeps -----

  /** The lines have a legal history, so everything proved of histories holds here. */
  ghost predicate HistoryOk(lines: G.Lines, high: set<G.Fd>, s: State) {
    G.Run(lines, high, s.history) && s.gpio == G.Final(lines, high, s.history)
  }

  /** Answers are events of the history that fit their requests, one for each, and no reply is without a request. */
  ghost predicate RepliesOk(lines: G.Lines, s: State) {
    && (forall id :: id in s.replied ==>
          && id in s.pins && 0 <= s.replied[id] < |s.history|
          && ReplyFor(lines, s.pins[id], s.history[s.replied[id]]))
    && (forall i, j :: i in s.replied && j in s.replied && s.replied[i] == s.replied[j] ==> i == j)
    && (forall k :: 0 <= k < |s.history| && G.IsReply(s.history[k]) ==> ReplyOfSome(s, k))
  }

  ghost predicate ReplyOfSome(s: State, k: int) {
    exists id :: id in s.replied && s.replied[id] == k
  }

  /** The server has dealt with the one live packet. */
  predicate DealtWith(m: R.State, at: R.Addr) {
    R.IsComplete(m, at) || m.server.Storing? || m.server.Completing?
  }

  /** The outcome that is stored or about to be stored. */
  predicate Success(m: R.State, id: R.Id) {
    if m.server.Storing? then m.server.success else id in m.decided && m.decided[id]
  }

  /** A request is answered as soon as the server has dealt with it, and its outcome is that of the answer. */
  ghost predicate RequestOk(s: State, id: R.Id) {
    && id in s.pins
    && (if R.Live(s.meet, id)
        then
          && (id in s.replied <==> DealtWith(s.meet, R.Owner(s.meet).addr))
          && (id in s.replied && 0 <= s.replied[id] < |s.history| ==>
                (Success(s.meet, id) <==> s.history[s.replied[id]].Pushed?))
        else
          && id in s.replied
          && (0 <= s.replied[id] < |s.history| ==>
                (id in s.meet.decided && s.meet.decided[id] <==> s.history[s.replied[id]].Pushed?)))
  }

  ghost predicate RequestsOk(s: State) {
    && (forall id: R.Id :: id < s.meet.nextId ==> RequestOk(s, id))
    && (forall id: R.Id :: id in s.pins ==> id < s.meet.nextId)
  }

  /** The server has a packet in hand only while it may still deal with it. */
  predicate SliceOk(s: State) {
    s.meet.server.Handling? ==> G.InSlice(s.gpio)
  }

  ghost predicate Inv(lines: G.Lines, high: set<G.Fd>, s: State) {
    R.Inv(s.meet) && HistoryOk(lines, high, s) && RepliesOk(lines, s) && RequestsOk(s) && SliceOk(s)
  }

  predicate Outside(e: R.Event) {
    e.Send? || e.Reject? || e.Decide?
  }

  /** How a request stands with the rendezvous is changed only by sending it and by answering it. */
  ghost predicate SameStanding(m: R.State, m': R.State, id: R.Id) {
    && (R.Live(m', id) ==>
          && R.Live(m, id) && (Success(m', id) <==> Success(m, id))
          && (DealtWith(m', R.Owner(m').addr) <==> DealtWith(m, R.Owner(m).addr)))
    && (!R.Live(m', id) && R.Live(m, id) ==>
          && DealtWith(m, R.Owner(m).addr)
          && (id in m'.decided && m'.decided[id] <==> Success(m, id)))
    && (!R.Live(m', id) && !R.Live(m, id) ==>
          (id in m'.decided && m'.decided[id] <==> id in m.decided && m.decided[id]))
  }

  lemma OwnerKeepsStanding(m: R.State, e: R.Event, id: R.Id)
    requires R.Inv(m) && R.Enabled(m, e) && R.ByOwner(e) && !e.Send? && id < m.nextId
    ensures SameStanding(m, R.Apply(m, e), id)
  {
    if !e.Lock? {
      R.ActorIsOwner(m, e);
    }
  }

  lemma ServerKeepsStanding(m: R.State, e: R.Event, id: R.Id)
    requires R.Inv(m) && R.Enabled(m, e) && (e.Receive? || e.StoreSuccess? || e.Complete?) && id < m.nextId
    ensures SameStanding(m, R.Apply(m, e), id)
  {
    R.ServerMovesNobody(m, e);
  }

  lemma OtherKeepsStanding(m: R.State, e: R.Event, id: R.Id)
    requires R.Inv(m) && R.Enabled(m, e) && (e.Wake? || e.Call?) && id < m.nextId
    ensures SameStanding(m, R.Apply(m, e), id)
  {
    if e.Wake? && e.who.Some? {
      R.SleeperIsOwner(m, e.who.value);
    } else if e.Call? {
      assert R.At(m, e.c) == R.Idle && m.holder != Some(e.c);
    }
  }

  lemma KeepsStanding(m: R.State, e: R.Event, id: R.Id)
    requires R.Inv(m) && R.Enabled(m, e) && !Outside(e) && id < m.nextId
    ensures SameStanding(m, R.Apply(m, e), id) && R.Apply(m, e).nextId == m.nextId
  {
    if R.ByOwner(e) {
      OwnerKeepsStanding(m, e, id);
    } else if e.Wake? || e.Call? {
      OtherKeepsStanding(m, e, id);
    } else {
      ServerKeepsStanding(m, e, id);
    }
  }

  lemma SendStanding(m: R.State, c: R.Client, at: R.Addr)
    requires R.Inv(m) && R.Enabled(m, R.Send(c, at))
    ensures
      var m' := R.Apply(m, R.Send(c, at));
      && m'.nextId == m.nextId + 1 && m'.decided == m.decided
      && R.Live(m', m.nextId) && !DealtWith(m', R.Owner(m').addr)
      && forall id: R.Id :: id < m.nextId ==> !R.Live(m, id) && !R.Live(m', id)
  {
    R.ActorIsOwner(m, R.Send(c, at));
  }

  /** The packet in the server's hands is that of the one live request, which it has not dealt with. */
  lemma AnswerStanding(m: R.State, e: R.Event)
    requires R.Inv(m) && R.Enabled(m, e) && (e.Reject? || e.Decide?)
    ensures
      var m' := R.Apply(m, e);
      && m.server.addr in m.memory && m'.nextId == m.nextId && m'.decided == m.decided
      && var id := m.memory[m.server.addr].id;
      && id < m.nextId && R.Live(m, id) && !DealtWith(m, R.Owner(m).addr)
      && R.Live(m', id) && DealtWith(m', R.Owner(m').addr)
      && (Success(m', id) <==> e.Decide? && e.success)
      && forall other: R.Id :: other != id ==> !R.Live(m, other) && !R.Live(m', other)
  {
    R.ServerMovesNobody(m, e);
    assert R.InUse(m.server) == {m.server.addr};
  }

  // ----- steps -----

  lemma HistoryStep(lines: G.Lines, high: set<G.Fd>, s: State, e: Event)
    requires HistoryOk(lines, high, s) && Enabled(lines, s, e)
    ensures HistoryOk(lines, high, Apply(lines, s, e))
  {
    if e.Line? || e.Answer? {
      var longer := G.Extend(lines, high, s.history, e.g);
    }
  }

  lemma SameReplies(lines: G.Lines, s: State, m: R.State)
    requires RepliesOk(lines, s)
    ensures RepliesOk(lines, s.(meet := m))
  {
    var s' := s.(meet := m);
    forall k | 0 <= k < |s'.history| && G.IsReply(s'.history[k])
      ensures ReplyOfSome(s', k)
    {
      assert ReplyOfSome(s, k);
    }
  }

  lemma RequestsByMeet(lines: G.Lines, s: State, e: R.Event)
    requires R.Inv(s.meet) && RequestsOk(s) && RepliesOk(lines, s) && R.Enabled(s.meet, e) && !Outside(e)
    ensures
      var s' := s.(meet := R.Apply(s.meet, e));
      RequestsOk(s') && RepliesOk(lines, s')
  {
    SameReplies(lines, s, R.Apply(s.meet, e));
    var s' := s.(meet := R.Apply(s.meet, e));
    forall id: R.Id | id < s'.meet.nextId
      ensures RequestOk(s', id)
    {
      KeepsStanding(s.meet, e, id);
      assert RequestOk(s, id);
    }
  }

  lemma RequestsByAsk(lines: G.Lines, s: State, e: Event)
    requires R.Inv(s.meet) && RequestsOk(s) && RepliesOk(lines, s) && Enabled(lines, s, e) && e.Ask?
    ensures RequestsOk(Apply(lines, s, e)) && RepliesOk(lines, Apply(lines, s, e))
  {
    var s' := Apply(lines, s, e);
    SendStanding(s.meet, e.c, e.at);
    assert s.meet.nextId !in s.replied;
    forall id: R.Id | id < s'.meet.nextId
      ensures RequestOk(s', id)
    {
      assert id < s.meet.nextId ==> RequestOk(s, id);
    }
    forall k | 0 <= k < |s'.history| && G.IsReply(s'.history[k])
      ensures ReplyOfSome(s', k)
    {
      assert ReplyOfSome(s, k);
    }
  }

  lemma RequestsByLine(lines: G.Lines, s: State, e: Event)
    requires RequestsOk(s) && RepliesOk(lines, s) && Enabled(lines, s, e) && e.Line?
    ensures RequestsOk(Apply(lines, s, e)) && RepliesOk(lines, Apply(lines, s, e))
  {
    var s' := Apply(lines, s, e);
    forall id: R.Id | id < s'.meet.nextId
      ensures RequestOk(s', id)
    {
      assert RequestOk(s, id);
    }
    forall k | 0 <= k < |s'.history| && G.IsReply(s'.history[k])
      ensures ReplyOfSome(s', k)
    {
      assert ReplyOfSome(s, k);
    }
  }

  lemma RepliesByAnswer(lines: G.Lines, s: State, e: Event, id: R.Id)
    requires RepliesOk(lines, s) && Enabled(lines, s, e) && e.Answer?
    requires id == s.meet.memory[s.meet.server.addr].id && id !in s.replied
    ensures RepliesOk(lines, Apply(lines, s, e))
  {
    var s' := Apply(lines, s, e);
    forall k | 0 <= k < |s'.history| && G.IsReply(s'.history[k])
      ensures ReplyOfSome(s', k)
    {
      if k < |s.history| {
        assert ReplyOfSome(s, k);
        var other :| other in s.replied && s.replied[other] == k;
        assert s'.replied[other] == k;
      } else {
        assert s'.replied[id] == k;
      }
    }
  }

  lemma RequestsByAnswer(lines: G.Lines, s: State, e: Event)
    requires R.Inv(s.meet) && RequestsOk(s) && RepliesOk(lines, s) && Enabled(lines, s, e) && e.Answer?
    ensures RequestsOk(Apply(lines, s, e)) && RepliesOk(lines, Apply(lines, s, e))
  {
    var s' := Apply(lines, s, e);
    AnswerStanding(s.meet, Outcome(e.g));
    var id := s.meet.memory[s.meet.server.addr].id;
    assert RequestOk(s, id);
    RepliesByAnswer(lines, s, e, id);
    forall other: R.Id | other < s'.meet.nextId
      ensures RequestOk(s', other)
    {
      assert RequestOk(s, other);
    }
  }

  /** The server has a packet in hand only after receiving it, and until it deals with it. */
  lemma HandlingStep(m: R.State, e: R.Event)
    requires R.Enabled(m, e) && R.Apply(m, e).server.Handling?
    ensures e.Receive? || m.server.Handling?
    ensures !e.Reject? && !e.Decide?
  {
    if !R.ByServer(e) {
      ClientsKeepServer(m, e);
    } else {
      ServerMovesOn(m, e);
    }
  }

  lemma ServerMovesOn(m: R.State, e: R.Event)
    requires R.Enabled(m, e) && R.ByServer(e)
    ensures R.Apply(m, e).server.Handling? <==> e.Receive?
  {
    match e {
      case Receive => assert R.Apply(m, e) == R.Take(m, m.queue[0]);
      case StoreSuccess =>
        assert R.Apply(m, e) == R.Touch(R.Store(m, m.server.addr, m.server.success), m.server.addr);
      case Complete => assert R.Apply(m, e) == R.Touch(R.MarkComplete(m, m.server.addr), m.server.addr);
      case _ =>
    }
  }

  lemma ClientsKeepServer(m: R.State, e: R.Event)
    requires R.Enabled(m, e) && !R.ByServer(e)
    ensures R.Apply(m, e).server == m.server
  {
  }

  lemma SliceStep(lines: G.Lines, s: State, e: Event)
    requires SliceOk(s) && Enabled(lines, s, e)
    ensures SliceOk(Apply(lines, s, e))
  {
    if !e.Line? && Apply(lines, s, e).meet.server.Handling? {
      HandlingStep(s.meet, MeetPart(e).value);
    }
  }

  /** What the rendezvous sees of an event. */
  function MeetPart(e: Event): Option<R.Event> {
    match e
    case Ask(c, at, _) => Some(R.Send(c, at))
    case Meet(step) => Some(step)
    case Line(_) => None
    case Answer(g) => Some(Outcome(g))
  }

  lemma MeetInvStep(lines: G.Lines, s: State, e: Event)
    requires R.Inv(s.meet) && Enabled(lines, s, e)
    ensures R.Inv(Apply(lines, s, e).meet)
  {
    if MeetPart(e).Some? {
      R.InvStep(s.meet, MeetPart(e).value);
    }
  }

  lemma RequestsStep(lines: G.Lines, s: State, e: Event)
    requires R.Inv(s.meet) && RequestsOk(s) && RepliesOk(lines, s) && Enabled(lines, s, e)
    ensures RequestsOk(Apply(lines, s, e)) && RepliesOk(lines, Apply(lines, s, e))
  {
    match e
    case Ask(_, _, _) => RequestsByAsk(lines, s, e);
    case Meet(step) => RequestsByMeet(lines, s, step);
    case Line(_) => RequestsByLine(lines, s, e);
    case Answer(_) => RequestsByAnswer(lines, s, e);
  }

  lemma InvStep(lines: G.Lines, high: set<G.Fd>, s: State, e: Event)
    requires Inv(lines, high, s) && Enabled(lines, s, e)
    ensures Inv(lines, high, Apply(lines, s, e))
  {
    HistoryStep(lines, high, s, e);
    SliceStep(lines, s, e);
    MeetInvStep(lines, s, e);
    RequestsStep(lines, s, e);
  }

  lemma {:induction false} RunKeepsInv(lines: G.Lines, high: set<G.Fd>, es: seq<Event>)
    requires Run(lines, high, es)
    ensures Inv(lines, high, Final(lines, high, es))
  {
    if es != [] {
      RunKeepsInv(lines, high, es[..|es| - 1]);
      InvStep(lines, high, Final(lines, high, es[..|es| - 1]), es[|es| - 1]);
    }
  }

  /** A request that the server has received can always be answered: the two systems never block each other. */
  lemma ServerCanAnswer(lines: G.Lines, high: set<G.Fd>, es: seq<Event>) returns (e: Event)
    requires Run(lines, high, es) && Final(lines, high, es).meet.server.Handling?
    ensures e.Answer? && Enabled(lines, Final(lines, high, es), e)
  {
    RunKeepsInv(lines, high, es);
    var s := Final(lines, high, es);
    AnswerStanding(s.meet, R.Reject);
    var id := s.meet.memory[s.meet.server.addr].id;
    assert RequestOk(s, id);
    var pin := s.pins[id];
    e := Answer(G.Refused(pin, if pin !in lines.ext then G.UnknownPin
                               else if G.Queued(s.gpio.heap, lines.ext[pin]) then G.AlreadyInReset
                               else G.IoctlError));
  }

  // ----- what a caller is told -----

  /** The request's client has left its closure with this result. */
  predicate Returned(s: State, id: R.Id, result: bool) {
    id < s.meet.nextId && !R.Live(s.meet, id) && id in s.meet.answered && s.meet.answered[id] == result
  }

  /**
   A reset reports success exactly when it happened: in every run of clients and server, every
   request that has returned has one event of its own in the history of the lines, and it
   returned true if and only if that event drove the line of its pin low and scheduled its
   release one second later. Then the line was held low until a release in time. Otherwise the
   request was refused, or the line is low and the heap was full.
   */
  lemma OkMeansReset(lines: G.Lines, high: set<G.Fd>, es: seq<Event>, id: R.Id, result: bool)
    requires lines.Distinct() && Run(lines, high, es) && Returned(Final(lines, high, es), id, result)
    ensures
      var s := Final(lines, high, es);
      && id in s.pins && id in s.replied && 0 <= s.replied[id] < |s.history|
      && var pin, e := s.pins[id], s.history[s.replied[id]];
      && (result <==> e.Pushed?)
      && (result ==>
            && pin in lines.ext && e.fd == lines.ext[pin] && e.hold == 1_000_000_000
            && G.HeldLow(lines, high, s.history, s.replied[id]))
      && (!result ==>
            || (e.Refused? && e.pin == pin)
            || (e.Overflow? && pin in lines.ext && e.fd == lines.ext[pin]))
      && forall other :: other in s.replied && s.replied[other] == s.replied[id] ==> other == id
  {
    RunKeepsInv(lines, high, es);
    var s := Final(lines, high, es);
    assert RequestOk(s, id);
    var k := s.replied[id];
    if s.history[k].Pushed? {
      assert lines.IsReset(s.history[k].fd);
      G.ResetHeldLow(lines, high, s.history, k);
    }
  }

  /** And the server lowers no line of its own accord: every reset in the history answers a request for its pin. */
  lemma ResetsAreAskedFor(lines: G.Lines, high: set<G.Fd>, es: seq<Event>, k: nat)
    requires Run(lines, high, es)
    requires k < |Final(lines, high, es).history| && G.IsReply(Final(lines, high, es).history[k])
    ensures
      var s := Final(lines, high, es);
      exists id :: id in s.replied && s.replied[id] == k && id in s.pins && ReplyFor(lines, s.pins[id], s.history[k])
  {
    RunKeepsInv(lines, high, es);
    assert ReplyOfSome(Final(lines, high, es), k);
  }

  // ----- a reset can succeed -----

  lemma Extend(lines: G.Lines, high: set<G.Fd>, es: seq<Event>, e: Event) returns (es': seq<Event>)
    requires Run(lines, high, es) && Enabled(lines, Final(lines, high, es), e)
    ensures es' == es + [e] && Run(lines, high, es')
    ensures Final(lines, high, es') == Apply(lines, Final(lines, high, es), e)
  {
    es' := es + [e];
    assert es'[..|es'| - 1] == es;
  }

  /** How many steps of its own the client of a complete packet is from returning, counting its wakeup. */
  function Distance(p: R.Place): nat {
    match p
    case Sleepy(_, _) => 3
    case Asleep(_, _) => 3
    case Check(_, _) => 2
    case Reading(_, _) => 1
    case _ => 0
  }

  /** Once its packet is complete, nothing keeps a client from returning. */
  lemma CompleteNears(m: R.State, id: R.Id) returns (e: R.Event)
    requires R.Inv(m) && R.Live(m, id) && R.IsComplete(m, R.Owner(m).addr)
    ensures R.Enabled(m, e) && !Outside(e) && !e.Receive?
    ensures
      var m' := R.Apply(m, e);
      if R.Live(m', id)
      then R.IsComplete(m', R.Owner(m').addr) && Distance(R.Owner(m')) < Distance(R.Owner(m))
      else id in m'.answered
  {
    var c := m.holder.value;
    match R.Owner(m)
    case Sleepy(_, _) => e := R.FutexWait(c);
    case Asleep(_, _) => e := R.Wake(Some(c));
    case Check(_, _) => e := R.Load(c);
    case Reading(_, _) => e := R.Return(c);
  }

  lemma {:induction false} CompleteReturns(lines: G.Lines, high: set<G.Fd>, es: seq<Event>, id: R.Id)
      returns (es': seq<Event>)
    requires Run(lines, high, es)
    requires
      var m := Final(lines, high, es).meet;
      id < m.nextId && R.Live(m, id) && R.IsComplete(m, R.Owner(m).addr)
    ensures es <= es' && Run(lines, high, es')
    ensures
      var s, s' := Final(lines, high, es), Final(lines, high, es');
      && s'.history == s.history && s'.replied == s.replied && s'.pins == s.pins
      && id < s'.meet.nextId && !R.Live(s'.meet, id) && id in s'.meet.answered
    decreases Distance(R.Owner(Final(lines, high, es).meet))
  {
    var s := Final(lines, high, es);
    RunKeepsInv(lines, high, es);
    var e := CompleteNears(s.meet, id);
    KeepsStanding(s.meet, e, id);
    es' := Extend(lines, high, es, Meet(e));
    if R.Live(Final(lines, high, es').meet, id) {
      es' := CompleteReturns(lines, high, es', id);
    }
  }

  /** The server stores the outcome it has decided on, and marks the packet complete. */
  lemma ServerCompletes(m: R.State, id: R.Id) returns (e: R.Event)
    requires R.Inv(m) && R.Live(m, id) && DealtWith(m, R.Owner(m).addr) && !R.IsComplete(m, R.Owner(m).addr)
    ensures R.Enabled(m, e) && (e.StoreSuccess? || e.Complete?)
    ensures
      var m' := R.Apply(m, e);
      R.Live(m', id) && (if e.Complete? then R.IsComplete(m', R.Owner(m').addr) else m'.server.Completing?)
  {
    e := if m.server.Storing? then R.StoreSuccess else R.Complete;
    R.ServerMovesNobody(m, e);
  }

  /** A request that the server has dealt with can return. */
  lemma DealtWithReturns(lines: G.Lines, high: set<G.Fd>, es: seq<Event>, id: R.Id) returns (es': seq<Event>)
    requires Run(lines, high, es)
    requires
      var m := Final(lines, high, es).meet;
      id < m.nextId && R.Live(m, id) && DealtWith(m, R.Owner(m).addr)
    ensures es <= es' && Run(lines, high, es')
    ensures
      var s, s' := Final(lines, high, es), Final(lines, high, es');
      && s'.history == s.history && s'.replied == s.replied && s'.pins == s.pins
      && id < s'.meet.nextId && !R.Live(s'.meet, id) && id in s'.meet.answered
    decreases Final(lines, high, es).meet.server.Storing?
  {
    var s := Final(lines, high, es);
    if R.IsComplete(s.meet, R.Owner(s.meet).addr) {
      es' := CompleteReturns(lines, high, es, id);
    } else {
      RunKeepsInv(lines, high, es);
      var e := ServerCompletes(s.meet, id);
      KeepsStanding(s.meet, e, id);
      es' := Extend(lines, high, es, Meet(e));
      if e.Complete? {
        es' := CompleteReturns(lines, high, es', id);
      } else {
        es' := DealtWithReturns(lines, high, es', id);
      }
    }
  }

  /**
   Resets can succeed: a received request for a configured pin whose line is not in reset, with
   room in the heap, can be answered by driving that line low and scheduling its release, and
   then returns true.
   */
  lemma ResetCanSucceed(lines: G.Lines, high: set<G.Fd>, es: seq<Event>, id: R.Id) returns (es': seq<Event>)
    requires lines.Distinct() && Run(lines, high, es)
    requires
      var s := Final(lines, high, es);
      && s.meet.server.Handling? && s.meet.server.addr in s.meet.memory
      && s.meet.memory[s.meet.server.addr].id == id
      && id in s.pins && s.pins[id] in lines.ext
      && !G.Queued(s.gpio.heap, lines.ext[s.pins[id]]) && |s.gpio.heap| < 8
    ensures es <= es' && Run(lines, high, es')
    ensures Returned(Final(lines, high, es'), id, true)
  {
    var s := Final(lines, high, es);
    RunKeepsInv(lines, high, es);
    var push := G.Pushed(lines.ext[s.pins[id]], s.gpio.clock, s.gpio.clock, G.HOLD);
    AnswerStanding(s.meet, Outcome(push));
    es' := Extend(lines, high, es, Answer(push));
    es' := DealtWithReturns(lines, high, es', id);
    OkMeansReset(lines, high, es', id, Final(lines, high, es').meet.answered[id]);
  }
}
