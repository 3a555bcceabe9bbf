/**
 The SSH supervisor and its kill handshake with kexec attempts. The supervisor restarts
 dropbear in a loop; each process has a watcher that kills its group when the kill channel
 closes. The first attempt that gets that far closes the channel and waits for the
 supervisor's completion channel; later ones find the channel already given up.

 Supervisor, watchers, processes and attempts take steps in any order.
 */
module SshSupervisor {
  import opened Common
  import Base64

  type Pid = nat  // the identity of a process: never used again
  type AttemptId = nat

  /** What became of the configured SSH server when the device started. */
  datatype Setup =
    | NotConfigured  // the completion channel is closed at once
    | SpawnFailed    // `Spawn` returned an error before its goroutine: nobody will close it
    | Started

  /** How start-up goes: given the configured host key, if any, and what the kernel answers. */
  function SetupOf(hostKey: Option<string>, pipeOk: bool, memfdOk: bool): Setup {
    if hostKey.None? then NotConfigured
    else if !pipeOk then SpawnFailed
    else if Base64.DecodeString(hostKey.value).None? then SpawnFailed
    else if !memfdOk then SpawnFailed
    else Started
  }

  /** Where the supervisor goroutine is. */
  datatype Place =
    | Absent
    | Launching           // about to start a process
    | Tracing(pid: Pid)   // started, waiting for its first stop
    | Waiting(pid: Pid)   // watcher running, in `proc.Wait`
    | Checking            // process reaped, about to look at the kill channel
    | Sleeping
    | Finished            // completion channel closed

  datatype Progress =
    | Holding  // unsealed its package, holds the lock
    | Awaiting // closed the kill channel, waits for completion
    | Past     // beyond the SSH step

  datatype State = State(
    setup: Setup,
    place: Place,
    started: set<Pid>,
    alive: set<Pid>,
    reaped: set<Pid>,
    signalled: set<Pid>,   // SIGKILL was sent to it
    armed: set<Pid>,       // its watcher is still in its select
    stopped: set<Pid>,     // its stop channel is closed
    kill: bool,            // the kill channel is closed
    completion: bool,      // the completion channel is closed
    handle: bool,          // `KexecSshKill` is not nil
    locked: bool,
    attempts: map<AttemptId, Progress>,
    lateSpawns: nat,       // processes started after the kill channel closed
    panicked: bool)        // a channel was closed twice

  datatype Event =
    | Enter(id: AttemptId)
    | Leave(id: AttemptId)
    | CloseKill(id: AttemptId)
    | Skip(id: AttemptId)
    | Proceed(id: AttemptId)
    | StartFails
    | Start(pid: Pid)
    | TraceFails
    | Traced
    | Die(pid: Pid)
    | FireKill(pid: Pid)
    | FireStop(pid: Pid)
    | Reap
    | SeeKill
    | SeeNoKill
    | Wake

  function Boot(setup: Setup): State {
    State(setup, if setup == Started then Launching else Absent, {}, {}, {}, {}, {}, {},
          false, setup == NotConfigured, true, false, map[], 0, false)
  }

  predicate Enabled(s: State, e: Event) {
    match e
    case Enter(id) => !s.locked && id !in s.attempts
    case Leave(id) => id in s.attempts && s.attempts[id] != Awaiting
    case CloseKill(id) => id in s.attempts && s.attempts[id] == Holding && s.handle
    case Skip(id) => id in s.attempts && s.attempts[id] == Holding && !s.handle
    case Proceed(id) => id in s.attempts && s.attempts[id] == Awaiting && s.completion
    case StartFails => s.place == Launching
    case Start(pid) => s.place == Launching && pid !in s.started
    case TraceFails => s.place.Tracing?
    case Traced => s.place.Tracing?
    case Die(pid) => pid in s.alive
    case FireKill(pid) => pid in s.armed && s.kill
    case FireStop(pid) => pid in s.armed && pid in s.stopped
    case Reap => s.place.Waiting? && s.place.pid !in s.alive
    case SeeKill => s.place == Checking && s.kill
    case SeeNoKill => s.place == Checking && !s.kill
    case Wake => s.place == Sleeping
  }

  /** The goroutine returns and its deferred close runs. */
  function Finish(s: State): State {
    s.(place := Finished, completion := true, panicked := s.panicked || s.completion)
  }

  function Apply(s: State, e: Event): State
    requires Enabled(s, e)
  {
    match e
    case Enter(id) => s.(locked := true, attempts := s.attempts[id := Holding])
    case Leave(id) => s.(locked := false, attempts := s.attempts - {id})
    case CloseKill(id) =>
      s.(kill := true, panicked := s.panicked || s.kill, handle := false, attempts := s.attempts[id := Awaiting])
    case Skip(id) => s.(attempts := s.attempts[id := Past])
    case Proceed(id) => s.(attempts := s.attempts[id := Past])
    case StartFails => Finish(s)
    case Start(pid) =>
      s.(place := Tracing(pid), started := s.started + {pid}, alive := s.alive + {pid},
         lateSpawns := s.lateSpawns + if s.kill then 1 else 0)
    case TraceFails => Finish(s.(signalled := s.signalled + {s.place.pid}))
    case Traced => s.(place := Waiting(s.place.pid), armed := s.armed + {s.place.pid})
    case Die(pid) => s.(alive := s.alive - {pid})
    case FireKill(pid) => s.(armed := s.armed - {pid}, signalled := s.signalled + {pid})
    case FireStop(pid) => s.(armed := s.armed - {pid})
    case Reap => s.(place := Checking, reaped := s.reaped + {s.place.pid}, stopped := s.stopped + {s.place.pid})
    case SeeKill => Finish(s)
    case SeeNoKill => s.(place := Sleeping)
    case Wake => s.(place := Launching)
  }

  /** The state after these events from start-up, if each was enabled in its turn. */
  function Exec(setup: Setup, es: seq<Event>): Option<State> {
    if es == [] then Some(Boot(setup))
    else
      var before := Exec(setup, es[..|es| - 1]);
      if before.Some? && Enabled(before.value, es[|es| - 1]) then Some(Apply(before.value, es[|es| - 1])) else None
  }

  predicate Run(setup: Setup, es: seq<Event>) {
    Exec(setup, es).Some?
  }

  function Final(setup: Setup, es: seq<Event>): State
    requires Run(setup, es)
  {
    Exec(setup, es).value
  }

  // ----- what every run keeps -----

  /** The process the supervisor is responsible for right now. */
  function Current(s: State): set<Pid> {
    if s.place.Tracing? || s.place.Waiting? then {s.place.pid} else {}
  }

  ghost predicate ProcessesOk(s: State) {
    && s.alive + s.reaped + s.signalled + s.armed + s.stopped <= s.started
    && s.alive !! s.reaped
    && (s.started - s.reaped <= Current(s) + s.signalled)
    && (s.place != Finished ==> s.started - s.reaped <= Current(s))
    && Current(s) !! s.reaped && Current(s) <= s.started
    && (s.place.Tracing? ==> s.place.pid !in s.armed)
    && (s.place.Waiting? ==> s.place.pid in s.armed || s.place.pid in s.signalled)
    && s.stopped == s.reaped
    && (!s.kill && s.place != Finished ==> s.signalled == {})
  }

  /** At the end at most one process is left unreaped. */
  ghost predicate LastOk(s: State) {
    s.place == Finished ==> |s.started - s.reaped| <= 1
  }

  ghost predicate ChannelsOk(s: State) {
    && !s.panicked
    && s.handle == !s.kill
    && (s.completion <==> s.setup == NotConfigured || s.place == Finished)
    && (s.setup == Started <==> s.place != Absent)
    && (!s.kill ==> s.lateSpawns == 0)
    && s.lateSpawns <= 1
    && (s.place == Launching || s.place == Sleeping ==> s.lateSpawns == 0)
  }

  ghost predicate AttemptsOk(s: State) {
    && (s.locked <==> s.attempts != map[])
    && (forall i, j :: i in s.attempts && j in s.attempts ==> i == j)
    && (forall i :: i in s.attempts && s.attempts[i] == Awaiting ==> s.kill)
    && (forall i :: i in s.attempts && s.attempts[i] == Past ==> s.kill && s.completion)
    // The channel was given up: by the one attempt that waits, or by one that has waited.
    && (s.kill && !s.completion ==> exists i :: i in s.attempts && s.attempts[i] == Awaiting)
  }

  ghost predicate Inv(s: State) {
    ProcessesOk(s) && LastOk(s) && ChannelsOk(s) && AttemptsOk(s)
  }

  predicate MovesSupervisor(e: Event) {
    e.StartFails? || e.Start? || e.TraceFails? || e.Traced? || e.Reap? || e.SeeKill? || e.SeeNoKill? || e.Wake?
  }

  lemma SupervisorStep(s: State, e: Event)
    requires ProcessesOk(s) && Enabled(s, e)
    requires MovesSupervisor(e)
    ensures ProcessesOk(Apply(s, e))
  {
  }

  lemma WatcherStep(s: State, e: Event)
    requires ProcessesOk(s) && Enabled(s, e)
    requires e.Die? || e.FireKill? || e.FireStop?
    ensures ProcessesOk(Apply(s, e))
  {
  }

  lemma OtherStep(s: State, e: Event)
    requires ProcessesOk(s) && Enabled(s, e)
    requires !MovesSupervisor(e)
    ensures ProcessesOk(Apply(s, e))
  {
    if e.Die? || e.FireKill? || e.FireStop? {
      WatcherStep(s, e);
    }
  }

  lemma LastStep(s: State, e: Event)
    requires ProcessesOk(s) && LastOk(s) && Enabled(s, e)
    ensures LastOk(Apply(s, e))
  {
    var s' := Apply(s, e);
    var left := s'.started - s'.reaped;
    if s'.place == Finished && s.place != Finished {
      assert left <= Current(s);
      assert left == {} || left == Current(s);
    }
  }

  lemma AttemptsStep(s: State, e: Event)
    requires AttemptsOk(s) && ChannelsOk(s) && Enabled(s, e)
    ensures AttemptsOk(Apply(s, e))
  {
    var s' := Apply(s, e);
    match e {
      case Enter(id) =>
        assert s'.attempts == map[id := Holding];
      case Leave(id) =>
        assert s'.attempts == map[];
      case CloseKill(id) =>
        assert id in s'.attempts && s'.attempts[id] == Awaiting;
      case Skip(id) =>
        assert id in s'.attempts;
      case Proceed(id) =>
        assert id in s'.attempts;
      case _ =>
        assert s'.attempts == s.attempts;
    }
  }

  lemma InvStep(s: State, e: Event)
    requires Inv(s) && Enabled(s, e)
    ensures Inv(Apply(s, e))
  {
    if MovesSupervisor(e) {
      SupervisorStep(s, e);
    } else {
      OtherStep(s, e);
    }
    LastStep(s, e);
    AttemptsStep(s, e);
  }

  lemma SetupStays(s: State, e: Event)
    requires Enabled(s, e)
    ensures Apply(s, e).setup == s.setup
  {
  }

  lemma BootInv(setup: Setup)
    ensures Inv(Boot(setup)) && Boot(setup).setup == setup && Boot(setup).attempts == map[]
  {
  }

  lemma {:induction false} RunKeepsInv(setup: Setup, es: seq<Event>)
    requires Run(setup, es)
    ensures Inv(Final(setup, es)) && Final(setup, es).setup == setup
  {
    if es == [] {
      BootInv(setup);
    } else {
      RunKeepsInv(setup, es[..|es| - 1]);
      SetupStays(Final(setup, es[..|es| - 1]), es[|es| - 1]);
      InvStep(Final(setup, es[..|es| - 1]), es[|es| - 1]);
    }
  }

  /** The SSH step is over: the supervisor has ended, and every process is reaped or has been sent SIGKILL. */
  ghost predicate Quiet(s: State) {
    && s.setup != SpawnFailed
    && (s.setup == Started ==> s.place == Finished)
    && s.started - s.reaped <= s.signalled
    && |s.started - s.reaped| <= 1
    && s.kill && s.completion && !s.panicked
  }

  lemma PastIsQuiet(s: State, id: AttemptId)
    requires Inv(s) && id in s.attempts && s.attempts[id] == Past
    ensures Quiet(s)
  {
    if s.setup == NotConfigured {
      assert s.started - s.reaped <= Current(s);
      assert s.started - s.reaped == {};
    }
  }

  /**
   The handshake, over any number of attempts: an attempt is past the SSH step only after
   the supervisor has ended (or never existed), with every dropbear it ever started reaped,
   except that a last one whose start-up failed has at least been sent SIGKILL; and the kill
   channel was closed once.
   */
  lemma PastMeansQuiet(setup: Setup, es: seq<Event>, id: AttemptId)
    requires Run(setup, es)
    requires id in Final(setup, es).attempts && Final(setup, es).attempts[id] == Past
    ensures setup != SpawnFailed && Quiet(Final(setup, es))
  {
    RunKeepsInv(setup, es);
    PastIsQuiet(Final(setup, es), id);
  }

  /** No dropbear is killed before an upgrade asks, except one whose start-up failed, which ends the supervisor. */
  lemma NotKilledEarly(setup: Setup, es: seq<Event>)
    requires Run(setup, es) && !Final(setup, es).kill && Final(setup, es).signalled != {}
    ensures Final(setup, es).place == Finished
  {
    RunKeepsInv(setup, es);
  }

  lemma QuietStep(s: State, e: Event)
    requires ChannelsOk(s) && s.completion && Enabled(s, e)
    ensures Apply(s, e).completion && Apply(s, e).started == s.started
  {
  }

  /** Once the supervisor has ended, nothing is ever started again. */
  lemma {:induction false} QuietForever(setup: Setup, es: seq<Event>, more: seq<Event>)
    requires Run(setup, es) && Run(setup, es + more)
    requires Final(setup, es).completion
    ensures Final(setup, es + more).started == Final(setup, es).started
    ensures Final(setup, es + more).completion
  {
    if more == [] {
      assert es + more == es;
    } else {
      var before := es + more[..|more| - 1];
      assert (es + more)[..|es + more| - 1] == before;
      QuietForever(setup, es, more[..|more| - 1]);
      RunKeepsInv(setup, before);
      QuietStep(Final(setup, before), more[|more| - 1]);
    }
  }

  /**
   However late the kill comes, at most one more dropbear is started after it, and as long
   as the supervisor waits for a process its watcher has either sent SIGKILL or still can.
   */
  lemma AtMostOneMore(setup: Setup, es: seq<Event>)
    requires Run(setup, es)
    ensures
      var s := Final(setup, es);
      && s.lateSpawns <= 1
      && (s.kill && s.place.Waiting? ==> s.place.pid in s.signalled || Enabled(s, FireKill(s.place.pid)))
  {
    RunKeepsInv(setup, es);
  }

  // ----- the supervisor ends once it is told to -----

  /** Steps that the supervisor, its watchers and its processes take on their own. */
  predicate Internal(e: Event) {
    MovesSupervisor(e) || e.Die? || e.FireKill? || e.FireStop?
  }

  lemma SupervisorKeepsAttempts(s: State, e: Event)
    requires Enabled(s, e) && MovesSupervisor(e)
    ensures Apply(s, e).attempts == s.attempts
  {
    if e.TraceFails? {
      assert Apply(s, e) == Finish(s.(signalled := s.signalled + {s.place.pid}));
    }
  }

  lemma InternalKeepsAttempts(s: State, e: Event)
    requires Enabled(s, e) && Internal(e)
    ensures Apply(s, e).attempts == s.attempts
  {
    if MovesSupervisor(e) {
      SupervisorKeepsAttempts(s, e);
    }
  }

  function Rank(p: Place): nat {
    match p
    case Sleeping => 6
    case Launching => 5
    case Tracing(_) => 4
    case Waiting(_) => 3
    case Checking => 2
    case Finished => 0
    case Absent => 0
  }

  function Measure(s: State): nat {
    3 * Rank(s.place) + |s.alive| + |s.armed|
  }

  lemma MeasureFallsSupervisor(s: State, e: Event)
    requires s.alive + s.armed <= s.started && s.kill && Enabled(s, e) && MovesSupervisor(e)
    ensures Measure(Apply(s, e)) < Measure(s)
  {
    if e.Start? {
      assert |s.alive + {e.pid}| == |s.alive| + 1;
    } else if e.Traced? {
      assert |s.armed + {s.place.pid}| <= |s.armed| + 1;
    }
  }

  lemma MeasureFallsOther(s: State, e: Event)
    requires Enabled(s, e) && !MovesSupervisor(e)
    ensures if Internal(e) then Measure(Apply(s, e)) < Measure(s) else Measure(Apply(s, e)) == Measure(s)
  {
    if e.Die? {
      assert |s.alive - {e.pid}| == |s.alive| - 1;
    } else if e.FireKill? || e.FireStop? {
      assert |s.armed - {e.pid}| == |s.armed| - 1;
    }
  }

  /** With the kill channel closed every internal step brings the end nearer; attempts do not delay it. */
  lemma MeasureFalls(s: State, e: Event)
    requires Inv(s) && s.kill && Enabled(s, e)
    ensures Apply(s, e).kill
    ensures Internal(e) ==> Measure(Apply(s, e)) < Measure(s)
    ensures !Internal(e) ==> Measure(Apply(s, e)) == Measure(s)
  {
    if MovesSupervisor(e) {
      MeasureFallsSupervisor(s, e);
    } else {
      MeasureFallsOther(s, e);
    }
  }

  /** With the kill channel closed some internal step is possible until the end; only a killed process need die. */
  lemma NotStuck(s: State) returns (e: Event)
    requires Inv(s) && s.kill && s.place != Finished && s.place != Absent
    ensures Internal(e) && Enabled(s, e)
    ensures e.Die? ==> e.pid in s.signalled
  {
    match s.place {
      case Launching => e := StartFails;
      case Tracing(_) => e := Traced;
      case Waiting(pid) => e := if pid !in s.alive then Reap else if pid in s.armed then FireKill(pid) else Die(pid);
      case Checking => e := SeeKill;
      case Sleeping => e := Wake;
    }
  }

  function InternalSteps(es: seq<Event>): nat {
    if es == [] then 0 else InternalSteps(es[..|es| - 1]) + if Internal(es[|es| - 1]) then 1 else 0
  }

  /** So after the kill channel closes only boundedly many internal steps remain, in every run. */
  lemma {:induction false} BoundedAfterKill(setup: Setup, es: seq<Event>, more: seq<Event>)
    requires Run(setup, es) && Run(setup, es + more)
    requires Final(setup, es).kill
    ensures Final(setup, es + more).kill
    ensures InternalSteps(more) + Measure(Final(setup, es + more)) <= Measure(Final(setup, es))
  {
    if more == [] {
      assert es + more == es;
    } else {
      var before := es + more[..|more| - 1];
      assert (es + more)[..|es + more| - 1] == before;
      BoundedAfterKill(setup, es, more[..|more| - 1]);
      RunKeepsInv(setup, before);
      MeasureFalls(Final(setup, before), more[|more| - 1]);
    }
  }

  lemma Extend(setup: Setup, es: seq<Event>, e: Event) returns (es': seq<Event>)
    requires Run(setup, es) && Enabled(Final(setup, es), e)
    ensures es' == es + [e] && Run(setup, es')
    ensures Final(setup, es') == Apply(Final(setup, es), e)
  {
    es' := es + [e];
    assert es'[..|es'| - 1] == es;
  }

  /** An attempt that waits for the supervisor can always still get past it, unless nobody will answer. */
  lemma {:induction false} AwaitingCanProceed(setup: Setup, es: seq<Event>, id: AttemptId) returns (es': seq<Event>)
    requires setup != SpawnFailed && Run(setup, es)
    requires id in Final(setup, es).attempts && Final(setup, es).attempts[id] == Awaiting
    ensures es <= es' && Run(setup, es')
    ensures id in Final(setup, es').attempts && Final(setup, es').attempts[id] == Past
    decreases Measure(Final(setup, es))
  {
    RunKeepsInv(setup, es);
    var s := Final(setup, es);
    if s.completion {
      es' := Extend(setup, es, Proceed(id));
    } else {
      var e := NotStuck(s);
      MeasureFalls(s, e);
      es' := Extend(setup, es, e);
      es' := AwaitingCanProceed(setup, es', id);
    }
  }

  /** Where `Spawn` failed early, the first attempt to close the channel waits for ever, holding the lock. */
  lemma {:induction false} DeadlockAfterSpawnFailure(es: seq<Event>, more: seq<Event>, id: AttemptId)
    requires Run(SpawnFailed, es) && Run(SpawnFailed, es + more)
    requires id in Final(SpawnFailed, es).attempts && Final(SpawnFailed, es).attempts[id] == Awaiting
    ensures
      var s := Final(SpawnFailed, es + more);
      s.locked && s.attempts == map[id := Awaiting]
  {
    if more == [] {
      assert es + more == es;
      RunKeepsInv(SpawnFailed, es);
    } else {
      var before := es + more[..|more| - 1];
      assert (es + more)[..|es + more| - 1] == before;
      DeadlockAfterSpawnFailure(es, more[..|more| - 1], id);
      RunKeepsInv(SpawnFailed, before);
    }
  }

  /** The exact condition: some attempt can get past the SSH step if and only if `Spawn` did not fail early. */
  lemma PastIffAnswered(setup: Setup)
    ensures (exists es, id ::
               Run(setup, es) && id in Final(setup, es).attempts && Final(setup, es).attempts[id] == Past)
       <==> setup != SpawnFailed
  {
    if setup != SpawnFailed {
      var es := Extend(setup, [], Enter(0));
      es := Extend(setup, es, CloseKill(0));
      es := AwaitingCanProceed(setup, es, 0);
    } else {
      forall es, id | Run(setup, es) && id in Final(setup, es).attempts
        ensures Final(setup, es).attempts[id] != Past
      {
        if Final(setup, es).attempts[id] == Past {
          PastMeansQuiet(setup, es, id);
        }
      }
    }
  }

  /** The deadlock is two steps away from start-up. */
  lemma SpawnFailureReachesDeadlock(id: AttemptId)
    ensures Run(SpawnFailed, [Enter(id), CloseKill(id)])
    ensures Final(SpawnFailed, [Enter(id), CloseKill(id)]).attempts == map[id := Awaiting]
    ensures forall more :: Run(SpawnFailed, [Enter(id), CloseKill(id)] + more) ==>
      var s := Final(SpawnFailed, [Enter(id), CloseKill(id)] + more);
      s.locked && s.attempts == map[id := Awaiting]
  {
    var es := Extend(SpawnFailed, [], Enter(id));
    es := Extend(SpawnFailed, es, CloseKill(id));
    assert es == [Enter(id), CloseKill(id)];
    forall more | Run(SpawnFailed, es + more)
      ensures
        var s := Final(SpawnFailed, es + more);
        s.locked && s.attempts == map[id := Awaiting]
    {
      DeadlockAfterSpawnFailure(es, more, id);
    }
  }

  /**
   The condition in terms of the configuration: upgrades can get past the SSH step if and only
   if no SSH server is configured, or its host key decodes and the kernel gave a pipe and a
   memory file. So one foreign character in a configured host key blocks every upgrade.
   */
  lemma PastIffKeyDecodes(hostKey: Option<string>, pipeOk: bool, memfdOk: bool)
    ensures
      var setup := SetupOf(hostKey, pipeOk, memfdOk);
      (exists es, id ::
         Run(setup, es) && id in Final(setup, es).attempts && Final(setup, es).attempts[id] == Past)
      <==> hostKey == None || (pipeOk && memfdOk && Base64.DecodeString(hostKey.value).Some?)
    ensures forall c ::
      hostKey.Some? && c in hostKey.value && !Base64.IsBase64Char(c) && c != '\r' && c != '\n' ==>
        SetupOf(hostKey, pipeOk, memfdOk) == SpawnFailed
  {
    PastIffAnswered(SetupOf(hostKey, pipeOk, memfdOk));
    forall c | hostKey.Some? && c in hostKey.value && !Base64.IsBase64Char(c) && c != '\r' && c != '\n'
      ensures SetupOf(hostKey, pipeOk, memfdOk) == SpawnFailed
    {
      Base64.ForeignCharRejected(hostKey.value, c);
    }
  }
}
