/**
 The real-time reset server: its line tables, and the loop that blinks, releases due lines
 and serves reset requests. Clock readings and ioctl outcomes come from the environment;
 every pass extends a legal history, so all that is proved of histories holds of the server.
 */
module GpioServer {
  import opened Common
  import opened GpioEvents

  // ----- the line tables -----

  datatype PinFunction = ExtReset | LivenessBlink

  /** A configured pin: what its config says, if it parses, and the descriptor the kernel gave its line, if it did. */
  datatype Pin = Pin(name: string, role: Option<PinFunction>, line: Option<Fd>)

  /** Pins come from a map, so names differ; lines stay open, so the kernel never repeats a descriptor. */
  ghost predicate PinsOk(pins: seq<Pin>) {
    && (forall i, j :: 0 <= i < j < |pins| ==> pins[i].name != pins[j].name)
    && (forall i, j :: 0 <= i < j < |pins| && pins[i].line.Some? && pins[j].line.Some? ==> pins[i].line != pins[j].line)
  }

  predicate Has(p: Pin, role: PinFunction) {
    p.role == Some(role) && p.line.Some?
  }

  /** The tables hold exactly the lines of the first `n` pins that can be used, by their function. */
  ghost predicate Tabulated(pins: seq<Pin>, n: nat, lines: Lines)
    requires n <= |pins|
  {
    && (forall i :: 0 <= i < n && Has(pins[i], ExtReset) ==>
          pins[i].name in lines.ext && lines.ext[pins[i].name] == pins[i].line.value)
    && (forall i :: 0 <= i < n && Has(pins[i], LivenessBlink) ==> pins[i].line.value in lines.blink)
    && (forall name :: name in lines.ext ==> exists i :: 0 <= i < n && Has(pins[i], ExtReset) && pins[i].name == name)
    && (forall fd :: fd in lines.blink ==>
          exists i :: 0 <= i < n && Has(pins[i], LivenessBlink) && pins[i].line.value == fd)
    && (forall i, j :: 0 <= i < j < |lines.blink| ==> lines.blink[i] != lines.blink[j])
  }

  /** One pin's effect on the tables: skipped when it cannot be used. */
  function AddPin(lines: Lines, pin: Pin): Lines {
    if pin.role.None? || pin.line.None? then lines
    else
      match pin.role.value
      case ExtReset => lines.(ext := lines.ext[pin.name := pin.line.value])
      case LivenessBlink => lines.(blink := lines.blink + [pin.line.value])
  }

  lemma TabulateOne(pins: seq<Pin>, n: nat, lines: Lines)
    requires PinsOk(pins) && n < |pins| && Tabulated(pins, n, lines)
    ensures Tabulated(pins, n + 1, AddPin(lines, pins[n]))
  {
    if Has(pins[n], ExtReset) {
      TabulateReset(pins, n, lines);
    } else if Has(pins[n], LivenessBlink) {
      TabulateBlink(pins, n, lines);
    } else {
      TabulateNone(pins, n, lines);
    }
  }

  lemma TabulateNone(pins: seq<Pin>, n: nat, lines: Lines)
    requires n < |pins| && Tabulated(pins, n, lines)
    requires !Has(pins[n], ExtReset) && !Has(pins[n], LivenessBlink)
    ensures Tabulated(pins, n + 1, lines)
  {
  }

  lemma TabulateReset(pins: seq<Pin>, n: nat, lines: Lines)
    requires PinsOk(pins) && n < |pins| && Tabulated(pins, n, lines) && Has(pins[n], ExtReset)
    ensures Tabulated(pins, n + 1, AddPin(lines, pins[n]))
  {
  }

  lemma TabulateBlink(pins: seq<Pin>, n: nat, lines: Lines)
    requires PinsOk(pins) && n < |pins| && Tabulated(pins, n, lines) && Has(pins[n], LivenessBlink)
    ensures Tabulated(pins, n + 1, AddPin(lines, pins[n]))
  {
    forall fd | fd in lines.blink
      ensures fd != pins[n].line.value
    {
      var i :| 0 <= i < n && Has(pins[i], LivenessBlink) && pins[i].line.value == fd;
      assert pins[i].line != pins[n].line;
    }
  }

  function Tables(pins: seq<Pin>): Lines {
    if pins == [] then Lines(map[], []) else AddPin(Tables(pins[..|pins| - 1]), pins[|pins| - 1])
  }

  lemma {:induction false} TablesHold(pins: seq<Pin>, n: nat)
    requires PinsOk(pins) && n <= |pins|
    ensures Tabulated(pins, n, Tables(pins[..n]))
  {
    if n > 0 {
      TablesHold(pins, n - 1);
      assert pins[..n][..n - 1] == pins[..n - 1];
      TabulateOne(pins, n - 1, Tables(pins[..n - 1]));
    }
  }

  /** Tables made of lines with distinct names and descriptors keep every line apart. */
  lemma TablesDistinct(pins: seq<Pin>, lines: Lines)
    requires PinsOk(pins) && Tabulated(pins, |pins|, lines)
    ensures lines.Distinct()
  {
    forall p, q | p in lines.ext && q in lines.ext && lines.ext[p] == lines.ext[q]
      ensures p == q
    {
      var i :| 0 <= i < |pins| && Has(pins[i], ExtReset) && pins[i].name == p;
      var j :| 0 <= j < |pins| && Has(pins[j], ExtReset) && pins[j].name == q;
      assert i == j;
    }
    forall p | p in lines.ext
      ensures lines.ext[p] !in lines.blink
    {
      var i :| 0 <= i < |pins| && Has(pins[i], ExtReset) && pins[i].name == p;
    }
  }

  /** Skip what cannot be used, put every other line into the one table of its function. */
  method BuildLines(pins: seq<Pin>) returns (lines: Lines)
    requires PinsOk(pins)
    ensures Tabulated(pins, |pins|, lines)
    ensures lines.Distinct()
    ensures forall p, fd ::
      (p in lines.ext && lines.ext[p] == fd) <==> Pin(p, Some(ExtReset), Some(fd)) in pins
    ensures forall fd :: fd in lines.blink <==> exists p :: Pin(p, Some(LivenessBlink), Some(fd)) in pins
  {
    lines := Lines(map[], []);
    for n := 0 to |pins|
      invariant lines == Tables(pins[..n])
    {
      var pin := pins[n];
      assert pins[..n + 1][..n] == pins[..n];
      if pin.role.None? || pin.line.None? {
        continue;
      }
      match pin.role.value {
        case ExtReset => lines := lines.(ext := lines.ext[pin.name := pin.line.value]);
        case LivenessBlink => lines := lines.(blink := lines.blink + [pin.line.value]);
      }
    }
    assert pins[..|pins|] == pins;
    TablesHold(pins, |pins|);
    TablesDistinct(pins, lines);
  }

  // ----- the heap's contract -----

  /** The earliest entry. */
  function Peek(heap: seq<Entry>): (e: Entry)
    requires heap != []
    ensures IsMin(heap, e)
    ensures e in heap
    ensures forall x :: x in heap ==> e.deadline < x.deadline || (e.deadline == x.deadline && e.fd <= x.fd)
  {
    if |heap| == 1 then heap[0]
    else
      var m := Peek(heap[1..]);
      assert heap == [heap[0]] + heap[1..];
      if AtMost(heap[0], m) then heap[0] else m
  }

  /** The entries that are not due. */
  function Later(heap: seq<Entry>, now: Time): seq<Entry> {
    if heap == [] then []
    else if heap[0].deadline > now then [heap[0]] + Later(heap[1..], now)
    else Later(heap[1..], now)
  }

  lemma {:induction false} LaterDropsDue(heap: seq<Entry>, e: Entry, now: Time)
    requires e in heap && e.deadline <= now
    ensures Later(Without(heap, e), now) == Later(heap, now)
  {
    if heap[0] != e {
      LaterDropsDue(heap[1..], e, now);
      assert Without(heap, e)[1..] == Without(heap[1..], e);
    }
  }

  lemma {:induction false} WithoutShrinks(heap: seq<Entry>, e: Entry)
    requires e in heap
    ensures |Without(heap, e)| == |heap| - 1
  {
    if heap[0] != e {
      WithoutShrinks(heap[1..], e);
    }
  }

  lemma {:induction false} LaterKeepsAll(heap: seq<Entry>, now: Time)
    requires NoneDue(heap, now)
    ensures Later(heap, now) == heap
  {
    if heap != [] {
      assert forall i :: 0 <= i < |heap[1..]| ==> heap[1..][i] == heap[i + 1];
      LaterKeepsAll(heap[1..], now);
    }
  }

  // ----- the server -----

  /** A request as it arrives, and whether driving its line low will succeed. */
  datatype Request = Request(pin: string, hold: Time, ioctlOk: bool)

  /** The answer that the tables, the heap and the ioctl leave no choice about. */
  predicate Answers(lines: Lines, heap: seq<Entry>, req: Request, e: Event, success: bool) {
    && success == e.Pushed?
    && (if req.pin !in lines.ext then e == Refused(req.pin, UnknownPin)
        else if Queued(heap, lines.ext[req.pin]) then e == Refused(req.pin, AlreadyInReset)
        else if !req.ioctlOk then e == Refused(req.pin, IoctlError)
        else (if |heap| < CAPACITY then e.Pushed? else e.Overflow?) && e.fd == lines.ext[req.pin] && e.hold == req.hold)
  }

  /** One blink event for each of these lines, in order. */
  predicate Blinks(blink: seq<Fd>, es: seq<Event>) {
    |es| == |blink| && forall i :: 0 <= i < |es| ==> es[i].Blink? && es[i].fd == blink[i]
  }

  predicate AllReleases(es: seq<Event>) {
    forall i :: 0 <= i < |es| ==> es[i].Release?
  }

  ghost predicate Answered(lines: Lines, req: Request, e: Event, success: bool) {
    exists heap :: Answers(lines, heap, req, e, success)
  }

  /** These events answer the first of the requests, one each, in order, by the heaps of their time. */
  ghost predicate AllAnswered(lines: Lines, requests: seq<Request>, es: seq<Event>, results: seq<bool>) {
    && |results| == |es| <= |requests|
    && forall i :: 0 <= i < |es| ==> Answered(lines, requests[i], es[i], results[i])
  }

  lemma OneMoreAnswer(lines: Lines, requests: seq<Request>, es: seq<Event>, results: seq<bool>,
                      heap: seq<Entry>, e: Event, success: bool)
    requires AllAnswered(lines, requests, es, results) && |es| < |requests|
    requires Answers(lines, heap, requests[|es|], e, success)
    ensures AllAnswered(lines, requests, es + [e], results + [success])
  {
    assert Answered(lines, requests[|es|], e, success);
  }

  lemma MoreAnswers(lines: Lines, answered: seq<Request>, es: seq<Event>, results: seq<bool>,
                    waiting: seq<Request>, es': seq<Event>, results': seq<bool>)
    requires AllAnswered(lines, answered, es, results) && |es| == |answered|
    requires AllAnswered(lines, waiting, es', results')
    ensures AllAnswered(lines, answered + waiting[..|es'|], es + es', results + results')
  {
    var requests := answered + waiting[..|es'|];
    forall i | 0 <= i < |es + es'|
      ensures Answered(lines, requests[i], (es + es')[i], (results + results')[i])
    {
      if i >= |es| {
        assert requests[i] == waiting[i - |es|];
      }
    }
  }

  /** The answers that a history gives, in order. */
  function Replies(es: seq<Event>): seq<Event> {
    if es == [] then []
    else if IsReply(es[|es| - 1]) then Replies(es[..|es| - 1]) + [es[|es| - 1]]
    else Replies(es[..|es| - 1])
  }

  lemma {:induction false} RepliesSplit(a: seq<Event>, b: seq<Event>)
    ensures Replies(a + b) == Replies(a) + Replies(b)
    decreases |b|
  {
    if b == [] {
      assert a + b == a;
    } else {
      assert (a + b)[..|a + b| - 1] == a + b[..|b| - 1];
      RepliesSplit(a, b[..|b| - 1]);
    }
  }

  lemma {:induction false} NoReplies(es: seq<Event>)
    requires forall i :: 0 <= i < |es| ==> !IsReply(es[i])
    ensures Replies(es) == []
  {
    if es != [] {
      NoReplies(es[..|es| - 1]);
    }
  }

  lemma {:induction false} OnlyReplies(es: seq<Event>)
    requires forall i :: 0 <= i < |es| ==> IsReply(es[i])
    ensures Replies(es) == es
  {
    if es != [] {
      OnlyReplies(es[..|es| - 1]);
    }
  }

  /** Of the events of a pass, the answers are the replies. */
  lemma PassReplies(lines: Lines, now: Time, blinks: seq<Event>, releases: seq<Event>,
                    requests: seq<Request>, answers: seq<Event>, results: seq<bool>)
    requires Blinks(lines.blink, blinks) && AllReleases(releases) && AllAnswered(lines, requests, answers, results)
    ensures Replies([Sample(now)] + blinks + (releases + [Drained]) + answers) == answers
  {
    RepliesSplit([Sample(now)] + blinks + (releases + [Drained]), answers);
    NoReplies([Sample(now)] + blinks + (releases + [Drained]));
    forall i | 0 <= i < |answers|
      ensures IsReply(answers[i])
    {
      assert Answered(lines, requests[i], answers[i], results[i]);
    }
    OnlyReplies(answers);
  }

  function AllOf(arrivals: seq<seq<Request>>): seq<Request> {
    if arrivals == [] then [] else AllOf(arrivals[..|arrivals| - 1]) + arrivals[|arrivals| - 1]
  }

  /**
   Of all requests that arrived, the first have been answered, each by its own event of this
   history and by no other, and the rest are waiting.
   */
  ghost predicate Served(lines: Lines, all: seq<Request>, answered: seq<Request>, waiting: seq<Request>,
                         results: seq<bool>, answers: seq<Event>, history: seq<Event>)
  {
    && answered + waiting == all
    && AllAnswered(lines, answered, answers, results) && |answers| == |answered|
    && answers == Replies(history)
  }

  lemma Arrive(lines: Lines, arrivals: seq<seq<Request>>, i: nat, answered: seq<Request>, waiting: seq<Request>,
               results: seq<bool>, answers: seq<Event>, history: seq<Event>)
    requires i < |arrivals| && Served(lines, AllOf(arrivals[..i]), answered, waiting, results, answers, history)
    ensures Served(lines, AllOf(arrivals[..i + 1]), answered, waiting + arrivals[i], results, answers, history)
  {
    assert arrivals[..i + 1][..i] == arrivals[..i];
    assert answered + (waiting + arrivals[i]) == (answered + waiting) + arrivals[i];
  }

  lemma ServedMore(lines: Lines, all: seq<Request>, answered: seq<Request>, waiting: seq<Request>,
                   results: seq<bool>, answers: seq<Event>, history: seq<Event>,
                   served: seq<bool>, replies: seq<Event>, pass: seq<Event>)
    requires Served(lines, all, answered, waiting, results, answers, history)
    requires AllAnswered(lines, waiting, replies, served) && Replies(pass) == replies
    ensures Served(lines, all, answered + waiting[..|served|], waiting[|served|..],
                   results + served, answers + replies, history + pass)
  {
    assert waiting == waiting[..|served|] + waiting[|served|..];
    MoreAnswers(lines, answered, answers, results, waiting, replies, served);
    RepliesSplit(history, pass);
  }

  class GpioServer {
    const lines: Lines
    ghost const initial: set<Fd>
    var heap: seq<Entry>
    var loopcnt: nat
    var now: Time
    var high: set<Fd>  // hardware: the lines that are high
    var clock: Time    // hardware: the time
    ghost var log: seq<Event>

    ghost function History(): State
      requires Run(lines, initial, log)
      reads this
    {
      Final(lines, initial, log)
    }

    ghost predicate Valid()
      reads this
    {
      && lines.Distinct()
      && Run(lines, initial, log)
      && heap == History().heap && high == History().high
      && now == History().now && loopcnt == History().passes
      && clock >= History().clock
    }

    /** The pass has blinked and is releasing what is due. */
    ghost predicate Draining()
      requires Run(lines, initial, log)
      reads this
    {
      !History().serving && History().blinked == |lines.blink|
    }

    constructor (lines: Lines, high: set<Fd>, clock: Time)
      requires lines.Distinct()
      ensures Valid() && log == [] && heap == [] && this.lines == lines && this.high == high && History().serving
    {
      this.lines, this.initial, this.high, this.clock := lines, high, high, clock;
      heap, loopcnt, now, log := [], 0, 0, [];
    }

    /** Time passes. */
    method ReadClock() returns (t: Time)
      modifies this`clock
      ensures t == clock >= old(clock)
    {
      t :| t >= clock;
      clock := t;
    }

    /** Setting a line takes time and may fail, which leaves the line as it was. */
    method SetLine(fd: Fd, bit: bool, ok: bool)
      modifies this`clock, this`high
      ensures clock >= old(clock)
      ensures high == if ok then Level(old(high), fd, bit) else old(high)
    {
      var t := ReadClock();
      if ok {
        high := Level(high, fd, bit);
      }
    }

    method BlinkLines() returns (ghost blinks: seq<Event>)
      requires Valid() && !History().serving && History().blinked == 0
      modifies this`clock, this`high, this`log
      ensures Valid() && Draining()
      ensures log == old(log) + blinks && Blinks(lines.blink, blinks)
      ensures forall i :: 0 <= i < |blinks| ==> blinks[i].bit == (loopcnt % 2 == 1)
    {
      blinks := [];
      for n := 0 to |lines.blink|
        invariant Valid() && !History().serving && History().blinked == n
        invariant log == old(log) + blinks && Blinks(lines.blink[..n], blinks)
        invariant forall i :: 0 <= i < |blinks| ==> blinks[i].bit == (loopcnt % 2 == 1)
      {
        var fd := lines.blink[n];
        var ok: bool := *;
        SetLine(fd, loopcnt % 2 == 1, ok);
        ghost var e := Blink(fd, loopcnt % 2 == 1, clock, ok);
        log := Extend(lines, initial, log, e);
        blinks := blinks + [e];
      }
    }

    /** Release the earliest line, which is due, and forget it whether or not its ioctl succeeds. */
    method ReleaseFirst(first: Entry) returns (ghost e: Event)
      requires Valid() && Draining() && IsMin(heap, first) && first.deadline <= now
      modifies this`clock, this`high, this`heap, this`log
      ensures Valid() && Draining()
      ensures heap == Without(old(heap), first)
      ensures log == old(log) + [e] && e.Release? && e.fd == first.fd && e.deadline == first.deadline
    {
      var ok: bool := *;
      SetLine(first.fd, true, ok);
      e := Release(first.fd, first.deadline, clock, ok);
      log := Extend(lines, initial, log, e);
      heap := Without(heap, first);
    }

    /** Release every due line and no other, earliest first, whether or not its ioctl succeeds. */
    method ReleaseDue() returns (ghost releases: seq<Event>)
      requires Valid() && Draining()
      modifies this`clock, this`high, this`heap, this`log
      ensures Valid() && History().serving
      ensures heap == Later(old(heap), now)
      ensures log == old(log) + releases + [Drained]
      ensures |releases| == |old(heap)| - |heap| && AllReleases(releases)
    {
      releases := [];
      while heap != []
        invariant Valid() && Draining()
        invariant Later(heap, now) == Later(old(heap), now)
        invariant log == old(log) + releases && AllReleases(releases)
        invariant |releases| + |heap| == |old(heap)|
        decreases |heap|
      {
        var first := Peek(heap);
        if first.deadline > now {
          break;
        }
        WithoutShrinks(heap, first);
        LaterDropsDue(heap, first, now);
        ghost var e := ReleaseFirst(first);
        releases := releases + [e];
      }
      LaterKeepsAll(heap, now);
      EndDrain();
    }

    ghost method EndDrain()
      requires Valid() && Draining() && NoneDue(heap, now)
      modifies this`log
      ensures Valid() && History().serving && log == old(log) + [Drained]
    {
      log := Extend(lines, initial, log, Drained);
    }

    /** Answer one request with exactly one event. */
    method Serve(req: Request) returns (success: bool, ghost e: Event)
      requires Valid() && History().serving && loopcnt > 0 && clock < now + SLICE
      modifies this`clock, this`high, this`heap, this`log
      ensures Valid() && History().serving
      ensures log == old(log) + [e] && Answers(lines, old(heap), req, e, success)
      ensures req.pin !in lines.ext ==> e == Refused(req.pin, UnknownPin)
      ensures req.pin in lines.ext && Queued(old(heap), lines.ext[req.pin]) ==> e == Refused(req.pin, AlreadyInReset)
      ensures req.pin in lines.ext && !Queued(old(heap), lines.ext[req.pin]) ==>
        if !req.ioctlOk then e == Refused(req.pin, IoctlError)
        else
          && (if |old(heap)| < 8 then e.Pushed? else e.Overflow?)
          && e.fd == lines.ext[req.pin] && e.hold == req.hold
      ensures success <==> e.Pushed?
      ensures |lines.ext| <= CAPACITY ==> !e.Overflow?
    {
      success := false;
      if req.pin !in lines.ext {
        e := Refused(req.pin, UnknownPin);
      } else {
        var fd := lines.ext[req.pin];
        if exists i :: 0 <= i < |heap| && heap[i].fd == fd {
          e := Refused(req.pin, AlreadyInReset);
        } else {
          SetLine(fd, false, req.ioctlOk);
          if !req.ioctlOk {
            e := Refused(req.pin, IoctlError);
          } else {
            ghost var low := clock;
            var t := ReadClock();
            if |heap| < CAPACITY {
              heap := heap + [Entry(t + req.hold, fd)];
              success := true;
              e := Pushed(fd, low, t, req.hold);
            } else {
              e := Overflow(fd, low, t, req.hold);
            }
          }
        }
      }
      log := Extend(lines, initial, log, e);
      if |lines.ext| <= CAPACITY {
        NoOverflow(lines, initial, log, |log| - 1);
      }
    }

    /** Serve waiting requests, in order, until none is left or the time slice is over. */
    method ServeRequests(deadline: Time, requests: seq<Request>) returns (results: seq<bool>, ghost answers: seq<Event>)
      requires Valid() && History().serving && loopcnt > 0 && deadline == now + SLICE
      modifies this`clock, this`high, this`heap, this`log
      ensures Valid() && History().serving
      ensures log == old(log) + answers && AllAnswered(lines, requests, answers, results)
      ensures |results| < |requests| ==> clock >= deadline
    {
      results, answers := [], [];
      while |results| < |requests|
        invariant Valid() && History().serving
        invariant log == old(log) + answers && AllAnswered(lines, requests, answers, results)
        decreases |requests| - |results|
      {
        var t := ReadClock();
        if t >= deadline {
          break;
        }
        ghost var before := heap;
        var success;
        ghost var e;
        success, e := Serve(requests[|results|]);
        OneMoreAnswer(lines, requests, answers, results, before, e, success);
        results, answers := results + [success], answers + [e];
      }
    }

    method BeginPass() returns (deadline: Time)
      requires Valid() && History().serving
      modifies this`clock, this`now, this`loopcnt, this`log
      ensures Valid() && !History().serving && History().blinked == 0
      ensures log == old(log) + [Sample(now)] && loopcnt == old(loopcnt) + 1 && deadline == now + SLICE
    {
      now := ReadClock();
      deadline := now + SLICE;
      loopcnt := loopcnt + 1;
      log := Extend(lines, initial, log, Sample(now));
    }

    /** One pass of the loop: sample the clock, blink, release what is due, serve. */
    method Pass(requests: seq<Request>)
        returns (results: seq<bool>, ghost blinks: seq<Event>, ghost releases: seq<Event>, ghost answers: seq<Event>)
      requires Valid() && History().serving
      modifies this
      ensures Valid() && History().serving && loopcnt == old(loopcnt) + 1
      ensures log == old(log) + [Sample(now)] + blinks + (releases + [Drained]) + answers
      ensures Blinks(lines.blink, blinks)
      ensures forall i :: 0 <= i < |blinks| ==> blinks[i].bit == (loopcnt % 2 == 1)
      ensures AllReleases(releases) && |releases| == |old(heap)| - |Later(old(heap), now)|
      ensures AllAnswered(lines, requests, answers, results)
      ensures |results| < |requests| ==> clock >= now + SLICE
    {
      var deadline := BeginPass();
      blinks := BlinkLines();
      releases := ReleaseDue();
      results, answers := ServeRequests(deadline, requests);
    }

    /** A pass whose only replies are its answers to the waiting requests. */
    method ReplyingPass(requests: seq<Request>)
        returns (results: seq<bool>, ghost answers: seq<Event>, ghost pass: seq<Event>)
      requires Valid() && History().serving
      modifies this
      ensures Valid() && History().serving && loopcnt == old(loopcnt) + 1
      ensures log == old(log) + pass && Replies(pass) == answers
      ensures AllAnswered(lines, requests, answers, results)
      ensures |results| < |requests| ==> clock >= now + SLICE
    {
      ghost var blinks, releases;
      results, blinks, releases, answers := Pass(requests);
      pass := [Sample(now)] + blinks + (releases + [Drained]) + answers;
      PassReplies(lines, now, blinks, releases, requests, answers, results);
    }

    /**
     The loop, for as many passes as there are batches of arrivals. Requests are answered in
     the order of arrival, each by its own event of the history and by no other; some are
     left waiting for the next pass only when the last slice was used up.
     */
    method Loop(arrivals: seq<seq<Request>>)
        returns (answered: seq<Request>, waiting: seq<Request>, results: seq<bool>, ghost answers: seq<Event>)
      requires Valid() && History().serving
      modifies this
      ensures Valid() && History().serving && old(log) <= log
      ensures loopcnt == old(loopcnt) + |arrivals|
      ensures Served(lines, AllOf(arrivals), answered, waiting, results, answers, log[|old(log)|..])
      ensures waiting != [] ==> clock >= now + SLICE
    {
      answered, waiting, results, answers := [], [], [], [];
      ghost var history: seq<Event> := [];
      for i := 0 to |arrivals|
        invariant Valid() && History().serving && log == old(log) + history
        invariant loopcnt == old(loopcnt) + i
        invariant Served(lines, AllOf(arrivals[..i]), answered, waiting, results, answers, history)
        invariant waiting != [] ==> clock >= now + SLICE
      {
        Arrive(lines, arrivals, i, answered, waiting, results, answers, history);
        waiting := waiting + arrivals[i];
        var served;
        ghost var replies, pass;
        served, replies, pass := ReplyingPass(waiting);
        ServedMore(lines, AllOf(arrivals[..i + 1]), answered, waiting, results, answers, history,
                   served, replies, pass);
        results, answers, history := results + served, answers + replies, history + pass;
        answered, waiting := answered + waiting[..|served|], waiting[|served|..];
      }
      assert arrivals[..|arrivals|] == arrivals;
      assert log[|old(log)|..] == history;
    }
  }
}
