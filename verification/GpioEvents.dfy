/**
 The reset server's observable history: clock samples, ioctls on its lines and the outcome
 of each request, as events over the state the server keeps. Everything the server promises
 about lines and deadlines is a statement about every legal history.
 */
module GpioEvents {
  import opened Common

  type Fd = int
  type Time = nat  // nanoseconds of the monotonic clock

  const CAPACITY := 8
  const SLICE: Time := 4_000_000
  const HOLD: Time := 1_000_000_000  // what every caller asks for

  /** The line tables: reset lines by pin name, and the lines that blink. */
  datatype Lines = Lines(ext: map<string, Fd>, blink: seq<Fd>) {
    /** Every line has its own descriptor. */
    ghost predicate Distinct() {
      && (forall p, q :: p in ext && q in ext && ext[p] == ext[q] ==> p == q)
      && (forall p :: p in ext ==> ext[p] !in blink)
      && (forall i, j :: 0 <= i < j < |blink| ==> blink[i] != blink[j])
    }

    predicate IsReset(fd: Fd) {
      exists p :: p in ext && ext[p] == fd
    }
  }

  datatype Entry = Entry(deadline: Time, fd: Fd)

  /** The order of the heap: earliest deadline first, then the smaller descriptor. */
  predicate AtMost(a: Entry, b: Entry) {
    a.deadline < b.deadline || (a.deadline == b.deadline && a.fd <= b.fd)
  }

  predicate IsMin(heap: seq<Entry>, e: Entry) {
    e in heap && forall i :: 0 <= i < |heap| ==> AtMost(e, heap[i])
  }

  predicate Queued(heap: seq<Entry>, fd: Fd) {
    exists i :: 0 <= i < |heap| && heap[i].fd == fd
  }

  predicate NoneDue(heap: seq<Entry>, now: Time) {
    forall i :: 0 <= i < |heap| ==> heap[i].deadline > now
  }

  function Without(heap: seq<Entry>, e: Entry): seq<Entry> {
    if heap == [] then [] else if heap[0] == e then heap[1..] else [heap[0]] + Without(heap[1..], e)
  }

  datatype State = State(
    heap: seq<Entry>,
    high: set<Fd>,         // the lines that are high
    clock: Time,           // no reading has been later than this
    now: Time,             // the sample that the current pass compares with
    prev: Time,            // the sample of the pass before
    passes: nat,
    maxGap: int,           // the longest time so far from one pass's sample to the next
    blinked: nat,          // how many lines have had their blink ioctl in this pass
    serving: bool)         // the drain of this pass is over

  datatype Refusal = UnknownPin | AlreadyInReset | IoctlError

  datatype Event =
    | Sample(t: Time)
    | Blink(fd: Fd, bit: bool, t: Time, ok: bool)
    | Release(fd: Fd, deadline: Time, t: Time, ok: bool)
    | Drained
    | Refused(pin: string, why: Refusal)
    | Pushed(fd: Fd, low: Time, pushed: Time, hold: Time)     // driven low at `low`, scheduled at `pushed`
    | Overflow(fd: Fd, low: Time, pushed: Time, hold: Time)   // driven low, but the heap was full

  /** The outcome of a request. */
  predicate IsReply(e: Event) {
    e.Refused? || e.Pushed? || e.Overflow?
  }

  function Init(high: set<Fd>): State {
    State([], high, 0, 0, 0, 0, 0, 0, true)
  }

  predicate Enabled(lines: Lines, s: State, e: Event) {
    match e
    case Sample(t) => s.serving && t >= s.clock
    case Blink(fd, bit, t, _) =>
      && !s.serving && s.blinked < |lines.blink| && fd == lines.blink[s.blinked]
      && bit == (s.passes % 2 == 1) && t >= s.clock
    case Release(fd, deadline, t, _) =>
      && !s.serving && s.blinked == |lines.blink|
      && IsMin(s.heap, Entry(deadline, fd)) && deadline <= s.now && t >= s.clock
    case Drained => !s.serving && s.blinked == |lines.blink| && NoneDue(s.heap, s.now)
    case Refused(pin, why) =>
      InSlice(s) &&
      (match why
       case UnknownPin => pin !in lines.ext
       case AlreadyInReset => pin in lines.ext && Queued(s.heap, lines.ext[pin])
       case IoctlError => pin in lines.ext && !Queued(s.heap, lines.ext[pin]))
    case Pushed(fd, low, pushed, _) => CanLower(lines, s, fd, low, pushed) && |s.heap| < CAPACITY
    case Overflow(fd, low, pushed, _) => CanLower(lines, s, fd, low, pushed) && |s.heap| >= CAPACITY
  }

  /** Requests are taken after the drain, while the clock can still read less than the end of the slice. */
  predicate InSlice(s: State) {
    s.serving && s.passes > 0 && s.clock < s.now + SLICE
  }

  predicate CanLower(lines: Lines, s: State, fd: Fd, low: Time, pushed: Time) {
    InSlice(s) && lines.IsReset(fd) && !Queued(s.heap, fd) && s.clock <= low <= pushed
  }

  function Level(high: set<Fd>, fd: Fd, bit: bool): set<Fd> {
    if bit then high + {fd} else high - {fd}
  }

  function Apply(lines: Lines, s: State, e: Event): State
    requires Enabled(lines, s, e)
  {
    match e
    case Sample(t) =>
      s.(clock := t, prev := s.now, now := t, passes := s.passes + 1, blinked := 0, serving := false,
         maxGap := if s.passes > 0 && t - s.now > s.maxGap then t - s.now else s.maxGap)
    case Blink(fd, bit, t, ok) =>
      s.(clock := t, blinked := s.blinked + 1, high := if ok then Level(s.high, fd, bit) else s.high)
    case Release(fd, deadline, t, ok) =>
      s.(clock := t, high := if ok then Level(s.high, fd, true) else s.high,
         heap := Without(s.heap, Entry(deadline, fd)))
    case Drained => s.(serving := true)
    case Refused(_, _) => s
    case Pushed(fd, _, pushed, hold) =>
      s.(clock := pushed, high := Level(s.high, fd, false), heap := s.heap + [Entry(pushed + hold, fd)])
    case Overflow(fd, _, pushed, _) => s.(clock := pushed, high := Level(s.high, fd, false))
  }

  /** The state after this history, if it is legal. */
  function Exec(lines: Lines, high: set<Fd>, es: seq<Event>): Option<State> {
    if es == [] then Some(Init(high))
    else
      var before := Exec(lines, high, es[..|es| - 1]);
      if before.Some? && Enabled(lines, before.value, es[|es| - 1])
      then Some(Apply(lines, before.value, es[|es| - 1]))
      else None
  }

  predicate Run(lines: Lines, high: set<Fd>, es: seq<Event>) {
    Exec(lines, high, es).Some?
  }

  function Final(lines: Lines, high: set<Fd>, es: seq<Event>): State
    requires Run(lines, high, es)
  {
    Exec(lines, high, es).value
  }

  lemma Extend(lines: Lines, high: set<Fd>, es: seq<Event>, e: Event) returns (es': seq<Event>)
    requires Run(lines, high, es) && Enabled(lines, Final(lines, high, es), e)
    ensures es' == es + [e] && Run(lines, high, es')
    ensures Final(lines, high, es') == Apply(lines, Final(lines, high, es), e)
  {
    es' := es + [e];
    assert es'[..|es'| - 1] == es;
  }

  lemma {:induction false} PrefixRuns(lines: Lines, high: set<Fd>, es: seq<Event>, n: nat)
    requires Run(lines, high, es) && n <= |es|
    ensures Run(lines, high, es[..n])
  {
    if n == |es| {
      assert es[..n] == es;
    } else {
      PrefixRuns(lines, high, es[..|es| - 1], n);
      assert es[..|es| - 1][..n] == es[..n];
    }
  }

  lemma EventWasEnabled(lines: Lines, high: set<Fd>, es: seq<Event>, i: nat)
    requires Run(lines, high, es) && i < |es|
    ensures Run(lines, high, es[..i]) && Enabled(lines, Final(lines, high, es[..i]), es[i])
  {
    PrefixRuns(lines, high, es, i + 1);
    assert es[..i + 1][..i] == es[..i];
  }

  // ----- the scheduling invariant -----

  /** The last event that drove or released this reset line. */
  function LastTouch(es: seq<Event>, fd: Fd): (r: Option<Event>)
    ensures r.Some? ==> Touches(r.value, fd)
  {
    if es == [] then None
    else if Touches(es[|es| - 1], fd) then Some(es[|es| - 1])
    else LastTouch(es[..|es| - 1], fd)
  }

  predicate Touches(e: Event, fd: Fd) {
    (e.Release? || e.Pushed? || e.Overflow?) && e.fd == fd
  }

  /** What the history says the heap must hold for a line. */
  predicate Scheduled(touch: Option<Event>) {
    touch.Some? && touch.value.Pushed?
  }

  /** What the history says the level of a reset line must be. */
  function LevelAfter(touch: Option<Event>, initial: bool): bool {
    match touch
    case None => initial
    case Some(e) => e.Release? && e.ok
  }

  ghost predicate HeapOk(lines: Lines, s: State) {
    && |s.heap| <= CAPACITY
    && (forall i :: 0 <= i < |s.heap| ==> lines.IsReset(s.heap[i].fd))
    && (forall i, j :: 0 <= i < j < |s.heap| ==> s.heap[i].fd != s.heap[j].fd)
  }

  /** A reset line is in the heap, and at its level, exactly as its last event says. */
  ghost predicate LineOk(s: State, touch: Option<Event>, initial: bool, fd: Fd) {
    && (Queued(s.heap, fd) <==> Scheduled(touch))
    && (Scheduled(touch) ==> Entry(touch.value.pushed + touch.value.hold, fd) in s.heap)
    && (fd in s.high <==> LevelAfter(touch, initial))
  }

  /** The deadline is after `t`; only a hold of zero may fall on it. */
  predicate After(push: Event, t: Time)
    requires push.Pushed?
  {
    push.pushed + push.hold > t || (push.hold == 0 && push.pushed == t)
  }

  /** A scheduled line was lowered before now, and was not due when its pass or the last one drained. */
  predicate PushOk(s: State, push: Event)
    requires push.Pushed?
  {
    && push.low <= push.pushed <= s.clock
    && s.passes > (if s.serving then 0 else 1)
    && After(push, if s.serving then s.now else s.prev)
  }

  predicate ClockOk(s: State) {
    && s.prev <= s.now <= s.clock
    && (s.passes > 1 ==> s.now <= s.prev + s.maxGap)
  }

  /** The part of the invariant that concerns one line. */
  ghost predicate LineInv(lines: Lines, high: set<Fd>, es: seq<Event>, s: State, fd: Fd) {
    && LineOk(s, LastTouch(es, fd), fd in high, fd)
    && (Scheduled(LastTouch(es, fd)) ==> PushOk(s, LastTouch(es, fd).value))
  }

  ghost predicate Inv(lines: Lines, high: set<Fd>, es: seq<Event>, s: State) {
    && HeapOk(lines, s)
    && ClockOk(s)
    && (forall fd :: lines.IsReset(fd) ==> LineInv(lines, high, es, s, fd))
  }

  lemma {:induction false} WithoutKeeps(heap: seq<Entry>, e: Entry)
    requires e in heap
    requires forall i, j :: 0 <= i < j < |heap| ==> heap[i].fd != heap[j].fd
    ensures
      var rest := Without(heap, e);
      && |rest| == |heap| - 1
      && (forall x :: x in rest <==> x in heap && x != e)
      && (forall i, j :: 0 <= i < j < |rest| ==> rest[i].fd != rest[j].fd)
  {
    if heap[0] == e {
      assert heap == [heap[0]] + heap[1..];
    } else {
      assert e in heap[1..];
      WithoutKeeps(heap[1..], e);
      var tail, rest := Without(heap[1..], e), Without(heap, e);
      assert rest == [heap[0]] + tail;
      forall i, j | 0 <= i < j < |rest|
        ensures rest[i].fd != rest[j].fd
      {
        if i == 0 {
          assert tail[j - 1] in tail && rest[j] in heap[1..];
        }
      }
      assert heap == [heap[0]] + heap[1..];
    }
  }

  lemma HeapStep(lines: Lines, s: State, e: Event)
    requires HeapOk(lines, s) && Enabled(lines, s, e)
    ensures HeapOk(lines, Apply(lines, s, e))
  {
    if e.Release? {
      WithoutKeeps(s.heap, Entry(e.deadline, e.fd));
      var rest := Apply(lines, s, e).heap;
      forall i | 0 <= i < |rest|
        ensures lines.IsReset(rest[i].fd)
      {
        assert rest[i] in rest && rest[i] in s.heap;
      }
    }
  }

  /** An entry of a line is the line's only entry. */
  lemma OnlyEntry(lines: Lines, s: State, a: Entry, b: Entry)
    requires HeapOk(lines, s) && a in s.heap && b in s.heap && a.fd == b.fd
    ensures a == b
  {
  }

  /** Releasing a line takes out its only entry and nothing of another line. */
  lemma ReleaseStep(lines: Lines, s: State, gone: Entry, fd: Fd)
    requires HeapOk(lines, s) && gone in s.heap
    ensures Queued(Without(s.heap, gone), fd) <==> Queued(s.heap, fd) && fd != gone.fd
    ensures forall x :: x in Without(s.heap, gone) <==> x in s.heap && x != gone
  {
    WithoutKeeps(s.heap, gone);
    var rest := Without(s.heap, gone);
    if i :| 0 <= i < |rest| && rest[i].fd == fd {
      assert rest[i] in rest;
      if fd == gone.fd {
        OnlyEntry(lines, s, rest[i], gone);
      }
    }
    if i :| 0 <= i < |s.heap| && s.heap[i].fd == fd {
      assert fd != gone.fd ==> s.heap[i] in rest;
    }
  }

  lemma LineStep(lines: Lines, s: State, e: Event, touch: Option<Event>, initial: bool, fd: Fd)
    requires lines.Distinct() && lines.IsReset(fd)
    requires HeapOk(lines, s) && Enabled(lines, s, e)
    requires LineOk(s, touch, initial, fd)
    ensures LineOk(Apply(lines, s, e), if Touches(e, fd) then Some(e) else touch, initial, fd)
  {
    var s' := Apply(lines, s, e);
    if e.Release? {
      ReleaseStep(lines, s, Entry(e.deadline, e.fd), fd);
    } else if e.Pushed? {
      assert s'.heap[|s.heap|] == Entry(e.pushed + e.hold, e.fd);
      assert forall i :: 0 <= i < |s.heap| ==> s'.heap[i] == s.heap[i];
    }
  }

  lemma PushStep(lines: Lines, s: State, e: Event, push: Event)
    requires Enabled(lines, s, e) && ClockOk(s)
    requires push.Pushed? && PushOk(s, push)
    requires Entry(push.pushed + push.hold, push.fd) in s.heap
    ensures PushOk(Apply(lines, s, e), push)
  {
  }

  lemma ClockStep(lines: Lines, s: State, e: Event)
    requires ClockOk(s) && Enabled(lines, s, e)
    ensures ClockOk(Apply(lines, s, e))
  {
  }

  lemma LastTouchStep(es: seq<Event>, e: Event, fd: Fd)
    ensures LastTouch(es + [e], fd) == if Touches(e, fd) then Some(e) else LastTouch(es, fd)
  {
    assert (es + [e])[..|es|] == es;
  }

  lemma LineInvStep(lines: Lines, high: set<Fd>, es: seq<Event>, s: State, e: Event, fd: Fd)
    requires lines.Distinct() && lines.IsReset(fd)
    requires HeapOk(lines, s) && ClockOk(s) && Enabled(lines, s, e)
    requires LineInv(lines, high, es, s, fd)
    ensures LineInv(lines, high, es + [e], Apply(lines, s, e), fd)
  {
    LastTouchStep(es, e, fd);
    LineStep(lines, s, e, LastTouch(es, fd), fd in high, fd);
    if Scheduled(LastTouch(es, fd)) && !Touches(e, fd) {
      PushStep(lines, s, e, LastTouch(es, fd).value);
    }
  }

  lemma {:induction false} RunKeepsInv(lines: Lines, high: set<Fd>, es: seq<Event>)
    requires lines.Distinct() && Run(lines, high, es)
    ensures Inv(lines, high, es, Final(lines, high, es))
  {
    if es != [] {
      var before, e := es[..|es| - 1], es[|es| - 1];
      RunKeepsInv(lines, high, before);
      assert es == before + [e];
      var s := Final(lines, high, before);
      HeapStep(lines, s, e);
      ClockStep(lines, s, e);
      forall fd | lines.IsReset(fd)
        ensures LineInv(lines, high, es, Apply(lines, s, e), fd)
      {
        LineInvStep(lines, high, before, s, e, fd);
      }
    }
  }

  // ----- what every history keeps -----

  /**
   A reset line that a reset drove low lacks a scheduled release in exactly two cases: its
   last reset found the heap full, or its last release ioctl failed.
   */
  lemma StuckLowIff(lines: Lines, high: set<Fd>, es: seq<Event>, fd: Fd)
    requires lines.Distinct() && Run(lines, high, es) && lines.IsReset(fd)
    requires LastTouch(es, fd).Some?
    ensures
      var s, last := Final(lines, high, es), LastTouch(es, fd).value;
      && (fd !in s.high && !Queued(s.heap, fd) <==> last.Overflow? || (last.Release? && !last.ok))
      && (Queued(s.heap, fd) <==> last.Pushed?)
      && (Queued(s.heap, fd) ==> fd !in s.high)
  {
    RunKeepsInv(lines, high, es);
    assert LineInv(lines, high, es, Final(lines, high, es), fd);
  }

  /** At any time at most eight lines are queued, all reset lines, no line twice. */
  lemma QueueIsProper(lines: Lines, high: set<Fd>, es: seq<Event>)
    requires lines.Distinct() && Run(lines, high, es)
    ensures HeapOk(lines, Final(lines, high, es))
    ensures forall i :: 0 <= i < |Final(lines, high, es).heap| ==> Final(lines, high, es).heap[i].fd !in lines.blink
  {
    RunKeepsInv(lines, high, es);
  }

  /** The first event after `j` on this line, or the end of the history. */
  function NextTouch(es: seq<Event>, j: nat, fd: Fd): (i: nat)
    requires j < |es|
    ensures j < i <= |es|
    ensures forall k :: j < k < i ==> !Touches(es[k], fd)
    ensures i < |es| ==> Touches(es[i], fd)
    decreases |es| - j
  {
    if j + 1 == |es| || Touches(es[j + 1], fd) then j + 1 else NextTouch(es, j + 1, fd)
  }

  lemma {:induction false} LastTouchIs(es: seq<Event>, j: nat, k: nat, fd: Fd)
    requires j < k <= |es| && Touches(es[j], fd)
    requires forall m :: j < m < k ==> !Touches(es[m], fd)
    ensures LastTouch(es[..k], fd) == Some(es[j])
  {
    if k > j + 1 {
      LastTouchIs(es, j, k - 1, fd);
      assert es[..k][..k - 1] == es[..k - 1];
    }
  }

  /**
   The event releases what was scheduled, no earlier than `hold` after the line was driven
   low, in the first pass whose sample reaches the deadline, and so less than one gap between
   samples after it.
   */
  ghost predicate ReleasesInTime(s: State, push: Event, e: Event)
    requires push.Pushed?
  {
    var deadline := push.pushed + push.hold;
    && e.Release? && e.fd == push.fd && e.deadline == deadline
    && e.t >= push.low + push.hold
    && deadline <= s.now
    && (s.prev < deadline || (push.hold == 0 && s.prev == deadline))
    && (s.now < deadline + s.maxGap || (push.hold == 0 && s.now == deadline + s.maxGap))
  }

  lemma ReleaseInTime(lines: Lines, high: set<Fd>, es: seq<Event>, push: Event, e: Event)
    requires push.Pushed? && lines.IsReset(push.fd)
    requires lines.Distinct() && Run(lines, high, es)
    requires LastTouch(es, push.fd) == Some(push)
    requires Touches(e, push.fd) && Enabled(lines, Final(lines, high, es), e)
    ensures ReleasesInTime(Final(lines, high, es), push, e)
  {
    var s := Final(lines, high, es);
    RunKeepsInv(lines, high, es);
    assert LineInv(lines, high, es, s, push.fd);
    if e.Release? {
      OnlyEntry(lines, s, Entry(e.deadline, e.fd), Entry(push.pushed + push.hold, push.fd));
    }
  }

  /** A line whose release is pending is not due once its pass has drained, and before that late by less than a gap. */
  ghost predicate NotOverdue(s: State, push: Event)
    requires push.Pushed?
  {
    var latest := push.pushed + push.hold + (if s.serving then 0 else s.maxGap);
    s.now < latest || (push.hold == 0 && s.now == latest)
  }

  lemma StillScheduled(lines: Lines, high: set<Fd>, es: seq<Event>, push: Event)
    requires push.Pushed? && lines.IsReset(push.fd)
    requires lines.Distinct() && Run(lines, high, es)
    requires LastTouch(es, push.fd) == Some(push)
    ensures Entry(push.pushed + push.hold, push.fd) in Final(lines, high, es).heap
    ensures NotOverdue(Final(lines, high, es), push)
  {
    RunKeepsInv(lines, high, es);
    assert LineInv(lines, high, es, Final(lines, high, es), push.fd);
  }

  /** The line is low after each of the events up to `i`. */
  ghost predicate LowThroughout(lines: Lines, high: set<Fd>, es: seq<Event>, j: nat, i: nat, fd: Fd) {
    forall k :: j < k <= i <= |es| ==> Run(lines, high, es[..k]) && fd !in Final(lines, high, es[..k]).high
  }

  lemma LowUntilTouched(lines: Lines, high: set<Fd>, es: seq<Event>, j: nat, i: nat, fd: Fd)
    requires lines.Distinct() && Run(lines, high, es) && lines.IsReset(fd)
    requires j < i <= |es| && es[j].Pushed? && es[j].fd == fd
    requires forall k :: j < k < i ==> !Touches(es[k], fd)
    ensures LowThroughout(lines, high, es, j, i, fd)
  {
    forall k | j < k <= i
      ensures Run(lines, high, es[..k]) && fd !in Final(lines, high, es[..k]).high
    {
      PrefixRuns(lines, high, es, k);
      LastTouchIs(es, j, k, fd);
      StuckLowIff(lines, high, es[..k], fd);
    }
  }

  /**
   From event `j`, which scheduled it, the line is low until the next event on it; that is its
   release, in time, or is yet to come and not overdue.
   */
  ghost predicate HeldLow(lines: Lines, high: set<Fd>, es: seq<Event>, j: nat)
    requires j < |es| && es[j].Pushed?
  {
    var push, i := es[j], NextTouch(es, j, es[j].fd);
    && LowThroughout(lines, high, es, j, i, push.fd)
    && Run(lines, high, es[..i])
    && (if i < |es| then ReleasesInTime(Final(lines, high, es[..i]), push, es[i])
        else
          && Entry(push.pushed + push.hold, push.fd) in Final(lines, high, es[..i]).heap
          && NotOverdue(Final(lines, high, es[..i]), push))
  }

  /**
   The life of a successful reset in every history. From the moment it is scheduled the line
   is low, without interruption, until the next event on it; if there is one, it is the
   release, in time; until then the release stays scheduled and is never overdue.
   */
  lemma ResetHeldLow(lines: Lines, high: set<Fd>, es: seq<Event>, j: nat)
    requires lines.Distinct() && Run(lines, high, es)
    requires j < |es| && es[j].Pushed? && lines.IsReset(es[j].fd)
    ensures HeldLow(lines, high, es, j)
  {
    var push, i := es[j], NextTouch(es, j, es[j].fd);
    LowUntilTouched(lines, high, es, j, i, push.fd);
    LastTouchIs(es, j, i, push.fd);
    PrefixRuns(lines, high, es, i);
    if i == |es| {
      StillScheduled(lines, high, es[..i], push);
    } else {
      EventWasEnabled(lines, high, es, i);
      ReleaseInTime(lines, high, es[..i], push, es[i]);
    }
  }

  // ----- when the heap can overflow -----

  function Fds(heap: seq<Entry>): (r: set<Fd>)
    ensures forall fd :: fd in r <==> Queued(heap, fd)
    ensures |r| <= |heap|
  {
    if heap == [] then {}
    else
      assert forall fd :: Queued(heap, fd) <==> Queued(heap[..|heap| - 1], fd) || heap[|heap| - 1].fd == fd;
      Fds(heap[..|heap| - 1]) + {heap[|heap| - 1].fd}
  }

  lemma {:induction false} FdsDistinct(heap: seq<Entry>)
    requires forall i, j :: 0 <= i < j < |heap| ==> heap[i].fd != heap[j].fd
    ensures |Fds(heap)| == |heap|
  {
    if heap != [] {
      FdsDistinct(heap[..|heap| - 1]);
      assert heap[|heap| - 1].fd !in Fds(heap[..|heap| - 1]);
    }
  }

  /** The descriptors of the reset lines. */
  function ResetFds(ext: map<string, Fd>): (r: set<Fd>)
    ensures forall fd :: fd in r <==> exists p :: p in ext && ext[p] == fd
  {
    set p | p in ext :: ext[p]
  }

  lemma {:induction false} ResetFdsCount(ext: map<string, Fd>)
    ensures |ResetFds(ext)| <= |ext|
    ensures (forall p, q :: p in ext && q in ext && ext[p] == ext[q] ==> p == q) ==> |ResetFds(ext)| == |ext|
    decreases |ext|
  {
    if ext != map[] {
      var p :| p in ext;
      var rest := ext - {p};
      ResetFdsCount(rest);
      forall fd
        ensures fd in ResetFds(ext) <==> fd in ResetFds(rest) || fd == ext[p]
      {
        if q :| q in ext && ext[q] == fd {
          assert q != p ==> q in rest && rest[q] == fd;
        }
      }
      assert ResetFds(ext) == ResetFds(rest) + {ext[p]};
      assert |rest| == |ext| - 1;
    } else {
      assert ResetFds(ext) == {};
    }
  }

  lemma SubsetSmaller(a: set<Fd>, b: set<Fd>)
    requires a <= b
    ensures |a| <= |b|
    ensures a < b ==> |a| < |b|
  {
    assert b == a + (b - a);
  }

  /** With at most eight reset lines the push never fails, in any history. */
  lemma NoOverflow(lines: Lines, high: set<Fd>, es: seq<Event>, i: nat)
    requires lines.Distinct() && Run(lines, high, es)
    requires |lines.ext| <= 8 && i < |es|
    ensures !es[i].Overflow?
  {
    if es[i].Overflow? {
      EventWasEnabled(lines, high, es, i);
      RunKeepsInv(lines, high, es[..i]);
      var s := Final(lines, high, es[..i]);
      FdsDistinct(s.heap);
      ResetFdsCount(lines.ext);
      assert es[i].fd in ResetFds(lines.ext) && es[i].fd !in Fds(s.heap);
      SubsetSmaller(Fds(s.heap), ResetFds(lines.ext));
    }
  }

  /** A pass begins at time 0 and makes the first `n` of its blink ioctls. */
  lemma {:induction false} BlinkedSome(lines: Lines, high: set<Fd>, n: nat) returns (es: seq<Event>)
    requires n <= |lines.blink|
    ensures Run(lines, high, es)
    ensures
      var s := Final(lines, high, es);
      !s.serving && s.passes == 1 && s.heap == [] && s.now == s.clock == 0 && s.blinked == n
  {
    if n == 0 {
      es := Extend(lines, high, [], Sample(0));
    } else {
      es := BlinkedSome(lines, high, n - 1);
      es := Extend(lines, high, es, Blink(lines.blink[n - 1], true, 0, true));
    }
  }

  /** With more, one pass can fill the heap: `n` lines can be in reset at once. */
  lemma {:induction false} FillHeap(lines: Lines, high: set<Fd>, n: nat) returns (es: seq<Event>)
    requires lines.Distinct() && n <= CAPACITY < |lines.ext|
    ensures Run(lines, high, es)
    ensures
      var s := Final(lines, high, es);
      InSlice(s) && s.now == s.clock == 0 && |s.heap| == n
  {
    if n == 0 {
      es := BlinkedSome(lines, high, |lines.blink|);
      es := Extend(lines, high, es, Drained);
    } else {
      es := FillHeap(lines, high, n - 1);
      var fd := FreeLine(lines, high, es);
      es := Extend(lines, high, es, Pushed(fd, 0, 0, HOLD));
    }
  }

  lemma FreeLine(lines: Lines, high: set<Fd>, es: seq<Event>) returns (fd: Fd)
    requires lines.Distinct() && Run(lines, high, es) && CAPACITY < |lines.ext|
    ensures lines.IsReset(fd) && !Queued(Final(lines, high, es).heap, fd)
  {
    var s := Final(lines, high, es);
    RunKeepsInv(lines, high, es);
    ResetFdsCount(lines.ext);
    FdsDistinct(s.heap);
    if ResetFds(lines.ext) <= Fds(s.heap) {
      SubsetSmaller(ResetFds(lines.ext), Fds(s.heap));
    }
    fd :| fd in ResetFds(lines.ext) && fd !in Fds(s.heap);
  }

  /** The exact condition: some history overflows the heap if and only if there are more than eight reset lines. */
  lemma OverflowIff(lines: Lines, high: set<Fd>)
    requires lines.Distinct()
    ensures (exists es: seq<Event>, i :: Run(lines, high, es) && 0 <= i < |es| && es[i].Overflow?)
       <==> |lines.ext| > 8
  {
    if |lines.ext| > CAPACITY {
      var es := FillHeap(lines, high, CAPACITY);
      var fd := FreeLine(lines, high, es);
      var es' := Extend(lines, high, es, Overflow(fd, 0, 0, HOLD));
      assert es'[|es|].Overflow?;
    } else {
      forall es: seq<Event>, i | Run(lines, high, es) && 0 <= i < |es|
        ensures !es[i].Overflow?
      {
        NoOverflow(lines, high, es, i);
      }
    }
  }

  // ----- the clock of the passes -----

  /** The samples of a history, in order. */
  function Samples(es: seq<Event>): seq<Time> {
    if es == [] then []
    else if es[|es| - 1].Sample? then Samples(es[..|es| - 1]) + [es[|es| - 1].t]
    else Samples(es[..|es| - 1])
  }

  /** When an event was over, if it tells. */
  function TimeOf(e: Event): Option<Time> {
    match e
    case Sample(t) => Some(t)
    case Blink(_, _, t, _) => Some(t)
    case Release(_, _, t, _) => Some(t)
    case Pushed(_, _, pushed, _) => Some(pushed)
    case Overflow(_, _, pushed, _) => Some(pushed)
    case _ => None
  }

  function LatestTime(es: seq<Event>): Time {
    if es == [] then 0
    else if TimeOf(es[|es| - 1]).Some? then TimeOf(es[|es| - 1]).value
    else LatestTime(es[..|es| - 1])
  }

  /** The longest time from one of these samples to the next. */
  function LongestGap(ts: seq<Time>): int {
    if |ts| < 2 then 0
    else
      var gap := ts[|ts| - 1] as int - ts[|ts| - 2] as int;
      var before := LongestGap(ts[..|ts| - 1]);
      if gap > before then gap else before
  }

  ghost predicate PassesMean(s: State, ts: seq<Time>) {
    && s.passes == |ts|
    && s.now == (if |ts| >= 1 then ts[|ts| - 1] else 0)
    && s.prev == (if |ts| >= 2 then ts[|ts| - 2] else 0)
    && s.maxGap == LongestGap(ts)
  }

  lemma SampleMeans(lines: Lines, s: State, t: Time, ts: seq<Time>)
    requires PassesMean(s, ts) && Enabled(lines, s, Sample(t))
    ensures PassesMean(Apply(lines, s, Sample(t)), ts + [t])
  {
    assert (ts + [t])[..|ts|] == ts;
  }

  lemma OthersMean(lines: Lines, s: State, e: Event, ts: seq<Time>)
    requires PassesMean(s, ts) && Enabled(lines, s, e) && !e.Sample?
    ensures PassesMean(Apply(lines, s, e), ts)
  {
  }

  lemma ClockMeans(lines: Lines, s: State, e: Event)
    requires Enabled(lines, s, e)
    ensures Apply(lines, s, e).clock == if TimeOf(e).Some? then TimeOf(e).value else s.clock
  {
  }

  /** What the server's clock variables mean, read off the history alone. */
  lemma {:induction false} ClockIsHistory(lines: Lines, high: set<Fd>, es: seq<Event>)
    requires Run(lines, high, es)
    ensures
      var s, ts := Final(lines, high, es), Samples(es);
      && s.passes == |ts|
      && s.now == (if |ts| >= 1 then ts[|ts| - 1] else 0)
      && s.prev == (if |ts| >= 2 then ts[|ts| - 2] else 0)
      && s.maxGap == LongestGap(ts)
      && s.clock == LatestTime(es)
  {
    if es != [] {
      ClockIsHistory(lines, high, es[..|es| - 1]);
      var s, e, ts := Final(lines, high, es[..|es| - 1]), es[|es| - 1], Samples(es[..|es| - 1]);
      ClockMeans(lines, s, e);
      if e.Sample? {
        SampleMeans(lines, s, e.t, ts);
      } else {
        OthersMean(lines, s, e, ts);
      }
    }
  }

  /** Every answer is begun within 4 ms of its pass's sample: nothing before it in the pass ended later. */
  lemma RepliesInSlice(lines: Lines, high: set<Fd>, es: seq<Event>, i: nat)
    requires Run(lines, high, es) && i < |es| && IsReply(es[i])
    ensures
      var ts := Samples(es[..i]);
      |ts| > 0 && LatestTime(es[..i]) < ts[|ts| - 1] + 4_000_000
  {
    EventWasEnabled(lines, high, es, i);
    ClockIsHistory(lines, high, es[..i]);
  }

  // ----- the blinking lines -----

  /** The lines that have had their blink ioctl since the last sample. */
  function BlinkedSince(es: seq<Event>): seq<Fd> {
    if es == [] || es[|es| - 1].Sample? then []
    else if es[|es| - 1].Blink? then BlinkedSince(es[..|es| - 1]) + [es[|es| - 1].fd]
    else BlinkedSince(es[..|es| - 1])
  }

  lemma {:induction false} BlinkCount(lines: Lines, high: set<Fd>, es: seq<Event>)
    requires Run(lines, high, es)
    ensures
      var s := Final(lines, high, es);
      && s.blinked <= |lines.blink| && BlinkedSince(es) == lines.blink[..s.blinked]
      && (s.serving && s.passes > 0 ==> s.blinked == |lines.blink|)
  {
    if es != [] {
      BlinkCount(lines, high, es[..|es| - 1]);
    }
  }

  /** In every pass, before anything is served, every blinking line has had its ioctl, once and in order. */
  lemma EveryPassBlinks(lines: Lines, high: set<Fd>, es: seq<Event>, i: nat)
    requires Run(lines, high, es) && i < |es| && (IsReply(es[i]) || es[i].Release?)
    ensures BlinkedSince(es[..i]) == lines.blink
  {
    EventWasEnabled(lines, high, es, i);
    BlinkCount(lines, high, es[..i]);
  }

  /** The level of a blinking line after this history: what the last successful ioctl on it set. */
  function BlinkLevel(es: seq<Event>, fd: Fd, initial: bool): bool {
    if es == [] then initial
    else if es[|es| - 1].Blink? && es[|es| - 1].fd == fd && es[|es| - 1].ok then es[|es| - 1].bit
    else BlinkLevel(es[..|es| - 1], fd, initial)
  }

  lemma OnlyBlinkMoves(lines: Lines, s: State, e: Event, fd: Fd)
    requires lines.Distinct() && HeapOk(lines, s) && Enabled(lines, s, e) && fd in lines.blink
    ensures
      fd in Apply(lines, s, e).high <==> if e.Blink? && e.fd == fd && e.ok then e.bit else fd in s.high
  {
  }

  /** Nothing but its own ioctls moves a blinking line. */
  lemma {:induction false} BlinkingLevel(lines: Lines, high: set<Fd>, es: seq<Event>, fd: Fd)
    requires lines.Distinct() && Run(lines, high, es) && fd in lines.blink
    ensures fd in Final(lines, high, es).high <==> BlinkLevel(es, fd, fd in high)
  {
    if es != [] {
      BlinkingLevel(lines, high, es[..|es| - 1], fd);
      RunKeepsInv(lines, high, es[..|es| - 1]);
      OnlyBlinkMoves(lines, Final(lines, high, es[..|es| - 1]), es[|es| - 1], fd);
    }
  }

  /**
   The lines blink: every blink ioctl, in every history, asks for the high level in the odd
   passes and for the low level in the even ones, and the line is at that level when it succeeds.
   */
  lemma BlinkFollowsPass(lines: Lines, high: set<Fd>, es: seq<Event>, i: nat)
    requires lines.Distinct() && Run(lines, high, es) && i < |es| && es[i].Blink?
    ensures es[i].fd in lines.blink
    ensures es[i].bit <==> |Samples(es[..i])| % 2 == 1
    ensures Run(lines, high, es[..i + 1])
    ensures es[i].ok ==> (es[i].fd in Final(lines, high, es[..i + 1]).high <==> |Samples(es[..i])| % 2 == 1)
  {
    EventWasEnabled(lines, high, es, i);
    ClockIsHistory(lines, high, es[..i]);
    PrefixRuns(lines, high, es, i + 1);
    BlinkingLevel(lines, high, es[..i + 1], es[i].fd);
  }

  /** So the ioctls of one line in successive passes ask for opposite levels. */
  lemma BlinksAlternate(lines: Lines, high: set<Fd>, es: seq<Event>, i: nat, j: nat)
    requires lines.Distinct() && Run(lines, high, es) && i < j < |es|
    requires es[i].Blink? && es[j].Blink? && |Samples(es[..j])| == |Samples(es[..i])| + 1
    ensures es[i].bit != es[j].bit
  {
    BlinkFollowsPass(lines, high, es, i);
    BlinkFollowsPass(lines, high, es, j);
  }
}
