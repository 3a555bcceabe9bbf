/**
 The supervisor goroutine with its loop: start dropbear, watch it, wait for it, look at the
 kill channel, sleep, start again. Between its own steps watchers, processes and kexec
 attempts take theirs, as the schedule says.
 */
module SshServer {
  import opened SshSupervisor

  /** What the environment does during one turn of the loop. */
  datatype Turn = Turn(
    startOk: bool,
    traceOk: bool,
    launching: seq<Event>,
    tracing: seq<Event>,
    waiting: seq<Event>,
    checking: seq<Event>,
    sleeping: seq<Event>)

  predicate ByOthers(turn: Turn) {
    && Foreign(turn.launching) && Foreign(turn.tracing) && Foreign(turn.waiting)
    && Foreign(turn.checking) && Foreign(turn.sleeping)
  }

  predicate Foreign(es: seq<Event>) {
    forall i :: 0 <= i < |es| ==> !MovesSupervisor(es[i])
  }

  /** The state after others have taken those of these steps that were possible in their turn. */
  function After(s: State, others: seq<Event>): State {
    if others == [] then s
    else
      var before, e := After(s, others[..|others| - 1]), others[|others| - 1];
      if Enabled(before, e) then Apply(before, e) else before
  }

  /** The identities from `a` up to `b`. */
  function Pids(a: Pid, b: Pid): (r: set<Pid>)
    requires a <= b
    ensures forall p :: p in r <==> a <= p < b
    ensures |r| == b - a
  {
    if a == b then {} else Pids(a, b - 1) + {b - 1}
  }

  /** After `n` turns, the first of which used identity `a`: who was started, and who is reaped. */
  ghost predicate TookTurns(s: State, before: set<Pid>, a: Pid, next: Pid, n: nat) {
    && a <= next <= a + n
    && (forall p :: p in s.started <==> p in before || a <= p < next)
    && (forall p :: p in s.started && p !in before ==> p in s.reaped || p + 1 == next)
    && (s.place == Launching ==> next == a + n && s.started <= before + s.reaped)
    && (s.place.Waiting? ==> s.place.pid + 1 == next && s.place.pid in s.alive)
    && (s.place == Launching || s.place.Waiting? || s.place == Finished)
  }

  /** What one turn does, beginning with identity `pid`. */
  ghost predicate TurnOver(s: State, s': State, pid: Pid, startOk: bool) {
    && s'.started == s.started + (if startOk then {pid} else {})
    && s.reaped <= s'.reaped
    && (s'.place == Launching ==> startOk && pid in s'.reaped)
    && (s'.place.Waiting? ==> startOk && s'.place.pid == pid && pid in s'.alive)
    && (s'.place == Launching || s'.place.Waiting? || s'.place == Finished)
  }

  lemma OneMoreTurn(s: State, s': State, before: set<Pid>, a: Pid, next: Pid, n: nat, startOk: bool)
    requires TookTurns(s, before, a, next, n) && s.place == Launching && TurnOver(s, s', next, startOk)
    ensures TookTurns(s', before, a, next + (if startOk then 1 else 0), n + 1)
  {
  }

  lemma FewerTurns(s: State, before: set<Pid>, a: Pid, next: Pid, i: nat, n: nat)
    requires TookTurns(s, before, a, next, i) && i <= n && (i == n || s.place != Launching)
    ensures TookTurns(s, before, a, next, n)
  {
  }

  lemma AllTurns(s: State, before: set<Pid>, a: Pid, next: Pid, n: nat)
    requires TookTurns(s, before, a, next, n) && s.place == Launching && forall p :: p in before ==> p < a
    ensures |s.started| == |before| + n
  {
    assert before !! Pids(a, next);
    assert s.started == before + Pids(a, next);
  }

  datatype Outcome = StillRunning | Ended

  class Server {
    var s: State
    var next: Pid  // the identity of the next process
    ghost var log: seq<Event>

    ghost predicate Valid()
      reads this
    {
      && Run(Started, log) && s == Final(Started, log)
      && forall p :: p in s.started ==> p < next
    }

    constructor ()
      ensures Valid() && s.place == Launching && log == [] && next == 0
    {
      s, next, log := Boot(Started), 0, [];
    }

    method Step(e: Event)
      requires Valid() && Enabled(s, e) && (e.Start? ==> e.pid < next)
      modifies this`s, this`log
      ensures Valid() && log == old(log) + [e] && s == Apply(old(s), e)
    {
      log := Extend(Started, log, e);
      s := Apply(s, e);
    }

    /** Others take those of the given steps that are possible when their turn comes. */
    method Interfere(others: seq<Event>)
      requires Valid() && Foreign(others)
      modifies this`s, this`log
      ensures Valid() && old(log) <= log
      ensures s.place == old(s).place && (old(s).kill ==> s.kill)
      ensures s.started == old(s).started && s.reaped == old(s).reaped
      ensures s == After(old(s), others)
    {
      for i := 0 to |others|
        invariant Valid() && old(log) <= log
        invariant s == After(old(s), others[..i])
        invariant s.place == old(s).place && (old(s).kill ==> s.kill)
        invariant s.started == old(s).started && s.reaped == old(s).reaped
      {
        assert others[..i + 1][..i] == others[..i];
        if Enabled(s, others[i]) {
          Step(others[i]);
        }
      }
      assert others[..|others|] == others;
    }

    /** Start a process, let it stop for its parameters, detach; any failure ends the supervisor. */
    method RunOnce(turn: Turn) returns (ok: bool)
      requires Valid() && s.place == Launching && ByOthers(turn)
      modifies this
      ensures Valid() && old(log) <= log
      ensures ok <==> turn.startOk && turn.traceOk
      ensures s.started == old(s).started + (if turn.startOk then {old(next)} else {})
      ensures next == old(next) + (if turn.startOk then 1 else 0) && s.reaped == old(s).reaped
      ensures s.place == (if ok then Waiting(old(next)) else Finished) && (old(s).kill ==> s.kill)
      ensures turn.startOk && !ok ==> old(next) in s.signalled
    {
      Interfere(turn.launching);
      if !turn.startOk {
        Step(StartFails);
        return false;
      }
      var pid := next;
      next := next + 1;
      Step(Start(pid));
      Interfere(turn.tracing);
      if !turn.traceOk {
        Step(TraceFails);
        return false;
      }
      Step(Traced);
      return true;
    }

    /** After a process is reaped: leave if the kill channel is closed, otherwise sleep and go round. */
    method CheckAndSleep(turn: Turn)
      requires Valid() && s.place == Checking && ByOthers(turn)
      modifies this`s, this`log
      ensures Valid() && old(log) <= log
      ensures s.started == old(s).started && s.reaped == old(s).reaped
      ensures s.place == Launching || (s.place == Finished && s.kill)
      ensures old(s).kill ==> s.place == Finished
    {
      Interfere(turn.checking);
      if s.kill {
        Step(SeeKill);
        return;
      }
      Step(SeeNoKill);
      Interfere(turn.sleeping);
      Step(Wake);
    }

    /** One turn of the loop; it stays in its wait when the process has not died. */
    method TakeTurn(turn: Turn)
      requires Valid() && s.place == Launching && ByOthers(turn)
      modifies this
      ensures Valid() && old(log) <= log
      ensures TurnOver(old(s), s, old(next), turn.startOk)
      ensures s.place.Waiting? ==> exists s0: State :: s0.place == s.place && s == After(s0, turn.waiting)
      ensures next == old(next) + (if turn.startOk then 1 else 0)
      ensures s.place == Finished ==> s.kill || !turn.startOk || (!turn.traceOk && old(next) in s.signalled)
      ensures old(s).kill ==> s.place != Launching
    {
      var pid := next;
      var ok := RunOnce(turn);
      if !ok {
        return;
      }
      Interfere(turn.waiting);
      if pid in s.alive {
        return;
      }
      Step(Reap);
      CheckAndSleep(turn);
    }

    /**
     Turn after turn, each with a process of its own, as long as the turns before came round:
     every process but the last is reaped, and the loop stops early only in the wait for the last
     one or at its end.
     */
    method TakeTurns(turns: seq<Turn>)
      requires Valid() && s.place == Launching
      requires forall i :: 0 <= i < |turns| ==> ByOthers(turns[i])
      modifies this
      ensures Valid() && old(log) <= log
      ensures TookTurns(s, old(s).started, old(next), next, |turns|)
      ensures turns != [] && turns[0].startOk ==> old(next) < next
    {
      var i := 0;
      while i < |turns| && s.place == Launching
        invariant Valid() && old(log) <= log && i <= |turns|
        invariant TookTurns(s, old(s).started, old(next), next, i)
        invariant if i == 0 then s.place == Launching else turns[0].startOk ==> old(next) < next
        decreases |turns| - i
      {
        ghost var s0, next0 := s, next;
        TakeTurn(turns[i]);
        OneMoreTurn(s0, s, old(s).started, old(next), next0, i, turns[i].startOk);
        i := i + 1;
      }
      FewerTurns(s, old(s).started, old(next), next, i, |turns|);
    }

    /**
     The supervisor. When it has ended every process is reaped, but perhaps a last one that was
     sent SIGKILL; and once the kill channel is closed it starts at most one process more.
     */
    method Supervise(turns: seq<Turn>) returns (r: Outcome)
      requires Valid() && s.place == Launching
      requires forall i :: 0 <= i < |turns| ==> ByOthers(turns[i])
      modifies this
      ensures Valid() && old(log) <= log
      ensures r == Ended <==> s.completion
      ensures r == Ended ==> s.started - s.reaped <= s.signalled && |s.started - s.reaped| <= 1
      ensures s.lateSpawns <= 1
      ensures TookTurns(s, old(s).started, old(next), next, |turns|)
      ensures s.place == Launching ==> |s.started| == |old(s).started| + |turns|
      ensures turns != [] && turns[0].startOk ==> old(next) in s.started
    {
      TakeTurns(turns);
      if s.place == Launching {
        AllTurns(s, old(s).started, old(next), next, |turns|);
      }
      RunKeepsInv(Started, log);
      r := if s.completion then Ended else StillRunning;
    }
  }
}
