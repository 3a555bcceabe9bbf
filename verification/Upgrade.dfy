/**
 The upgrade as a whole: the boot chain and the SSH supervisor in one system. An attempt that
 has unsealed its package goes on through the normal handler only when it is past the SSH
 step; every boot starts a supervisor, or fails to, as its config says. The emergency handler
 has no SSH step.
 */
module Upgrade {
  import opened Common
  import opened Layout
  import opened Kexec
  import opened BootChain
  import Base64
  import Ocram
  import S = SshSupervisor

  datatype State = State(
    device: Device,
    ssh: S.State,
    setups: seq<S.Setup>)  // what became of the SSH server at each boot

  datatype Step =
    | Chain(e: Event, pipeOk: bool, memfdOk: bool)  // and what the kernel answers to `Spawn` if this boots
    | Ssh(step: S.Event)

  /** How the SSH server of a boot with this config is set up. */
  function SetupFor(w: World, config: Option<Bytes>, pipeOk: bool, memfdOk: bool): S.Setup {
    S.SetupOf(if config.Some? then w.hostKey(config.value) else None, pipeOk, memfdOk)
  }

  /** What the supervisor's side sees of a step of the normal handler. */
  function SshPart(e: Event): Option<S.Event> {
    match e
    case Vet(id, _, _) => Some(S.Enter(id))
    case SaveFails(id) => Some(S.Leave(id))
    case LoadFails(id, _) => Some(S.Leave(id))
    case _ => None
  }

  ghost predicate Enabled(w: World, width: IntWidth, u: State, t: Step) {
    match t
    case Chain(e, _, _) =>
      && BootChain.Enabled(w, width, u.device, e)
      && (u.device.running.Normal? ==>
            && (SshPart(e).Some? ==> S.Enabled(u.ssh, SshPart(e).value))
            && (e.Quiesce? ==> e.id in u.ssh.attempts && u.ssh.attempts[e.id] == S.Past))
    case Ssh(step) => u.device.running.Normal? && S.Enabled(u.ssh, step) && !step.Enter? && !step.Leave?
  }

  /** The supervisor's side after a step of a handler that does not boot. */
  function SshAfter(u: State, e: Event): S.State
    requires u.device.running.Normal? && SshPart(e).Some? ==> S.Enabled(u.ssh, SshPart(e).value)
  {
    if u.device.running.Normal? && SshPart(e).Some? then S.Apply(u.ssh, SshPart(e).value) else u.ssh
  }

  ghost function Apply(w: World, width: IntWidth, u: State, t: Step): State
    requires Enabled(w, width, u, t)
  {
    match t
    case Chain(e, pipeOk, memfdOk) =>
      var d := BootChain.Apply(w, width, u.device, e);
      if Boots(e) then
        BootAdds(w, width, u.device, e);
        var setup := SetupFor(w, d.boots[|d.boots| - 1].config, pipeOk, memfdOk);
        State(d, S.Boot(setup), u.setups + [setup])
      else
        State(d, SshAfter(u, e), u.setups)
    case Ssh(step) => u.(ssh := S.Apply(u.ssh, step))
  }

  ghost predicate Start(w: World, u: State) {
    && BootChain.Start(w, u.device)
    && exists pipeOk, memfdOk ::
         var setup := SetupFor(w, u.device.boots[0].config, pipeOk, memfdOk);
         u.ssh == S.Boot(setup) && u.setups == [setup]
  }

  ghost function Exec(w: World, width: IntWidth, u0: State, ts: seq<Step>): Option<State> {
    if ts == [] then (if Start(w, u0) then Some(u0) else None)
    else
      var before := Exec(w, width, u0, ts[..|ts| - 1]);
      if before.Some? && Enabled(w, width, before.value, ts[|ts| - 1])
      then Some(Apply(w, width, before.value, ts[|ts| - 1]))
      else None
  }

  ghost predicate Run(w: World, width: IntWidth, u0: State, ts: seq<Step>) {
    Exec(w, width, u0, ts).Some?
  }

  ghost function Final(w: World, width: IntWidth, u0: State, ts: seq<Step>): State
    requires Run(w, width, u0, ts)
  {
    Exec(w, width, u0, ts).value
  }

  lemma Extend(w: World, width: IntWidth, u0: State, ts: seq<Step>, t: Step) returns (ts': seq<Step>)
    requires Run(w, width, u0, ts) && Enabled(w, width, Final(w, width, u0, ts), t)
    ensures ts' == ts + [t] && Run(w, width, u0, ts')
    ensures Final(w, width, u0, ts') == Apply(w, width, Final(w, width, u0, ts), t)
  {
    ts' := ts + [t];
    assert ts'[..|ts'| - 1] == ts;
  }

  // ----- every joint run is a run of the boot chain -----

  function ChainPart(ts: seq<Step>): seq<Event> {
    if ts == [] then []
    else if ts[|ts| - 1].Chain? then ChainPart(ts[..|ts| - 1]) + [ts[|ts| - 1].e]
    else ChainPart(ts[..|ts| - 1])
  }

  lemma {:induction false} RunsChain(w: World, width: IntWidth, u0: State, ts: seq<Step>)
    requires Run(w, width, u0, ts)
    ensures BootChain.Run(w, width, u0.device, ChainPart(ts))
    ensures BootChain.Final(w, width, u0.device, ChainPart(ts)) == Final(w, width, u0, ts).device
  {
    if ts != [] {
      var before, t := ts[..|ts| - 1], ts[|ts| - 1];
      RunsChain(w, width, u0, before);
      if t.Chain? {
        var longer := BootChain.Extend(w, width, u0.device, ChainPart(before), t.e);
      }
    }
  }

  // ----- what every run keeps -----

  predicate PastVet(stage: Stage) {
    !stage.Arrived? && !stage.Holding?
  }

  /** While the normal handler runs, its attempts stand with the supervisor as their stages say. */
  ghost predicate AttemptsOk(u: State) {
    && (forall id :: id in u.ssh.attempts <==> id in u.device.attempts && PastVet(u.device.attempts[id]))
    && (forall id :: id in u.ssh.attempts && !u.device.attempts[id].Vetted? ==> u.ssh.attempts[id] == S.Past)
  }

  ghost predicate SetupOfBoot(w: World, b: Boot, setup: S.Setup) {
    exists pipeOk, memfdOk :: setup == SetupFor(w, b.config, pipeOk, memfdOk)
  }

  ghost predicate SetupsOk(w: World, u: State) {
    && |u.setups| == |u.device.boots|
    && (forall i :: 0 <= i < |u.setups| ==> SetupOfBoot(w, u.device.boots[i], u.setups[i]))
    && u.setups != [] && u.ssh.setup == u.setups[|u.setups| - 1]
  }

  /** No boot through the normal handler follows one at which `Spawn` had failed. */
  ghost predicate NormalBootsOk(boots: seq<Boot>, setups: seq<S.Setup>) {
    forall i :: 0 < i < |boots| && i <= |setups| && boots[i].Kexec? && boots[i].from.Normal? ==>
      setups[i - 1] != S.SpawnFailed
  }

  ghost predicate Inv(w: World, width: IntWidth, u: State) {
    && BootChain.StagesOk(w, width, u.device)
    && S.Inv(u.ssh)
    && (u.device.running.Normal? ==> AttemptsOk(u))
    && SetupsOk(w, u)
    && NormalBootsOk(u.device.boots, u.setups)
  }

  /** This step is taken by the normal handler, which goes on running. */
  predicate Continues(e: Event) {
    !Boots(e) && !e.RebootFails? && !e.Crash?
  }

  lemma AttemptsByEntry(w: World, width: IntWidth, u: State, t: Step)
    requires AttemptsOk(u) && Enabled(w, width, u, t) && t.Chain? && u.device.running.Normal?
    requires t.e.Arrive? || t.e.Reject? || t.e.Lock? || t.e.GiveUp?
    ensures AttemptsOk(Apply(w, width, u, t))
  {
  }

  lemma AttemptsByProgress(w: World, width: IntWidth, u: State, t: Step)
    requires AttemptsOk(u) && Enabled(w, width, u, t) && t.Chain? && u.device.running.Normal?
    requires t.e.Vet? || t.e.Quiesce? || t.e.Save? || t.e.Load?
    ensures AttemptsOk(Apply(w, width, u, t))
  {
  }

  lemma AttemptsByLeave(w: World, width: IntWidth, u: State, t: Step)
    requires AttemptsOk(u) && Enabled(w, width, u, t) && t.Chain? && u.device.running.Normal?
    requires t.e.SaveFails? || t.e.LoadFails?
    ensures AttemptsOk(Apply(w, width, u, t))
  {
  }

  lemma AttemptsBySsh(w: World, width: IntWidth, u: State, t: Step)
    requires AttemptsOk(u) && Enabled(w, width, u, t) && t.Ssh?
    ensures AttemptsOk(Apply(w, width, u, t))
  {
    if S.Internal(t.step) {
      S.InternalKeepsAttempts(u.ssh, t.step);
    }
  }

  lemma AttemptsByBoot(w: World, width: IntWidth, u: State, t: Step)
    requires Enabled(w, width, u, t) && t.Chain? && Boots(t.e)
    ensures AttemptsOk(Apply(w, width, u, t))
  {
    BootAdds(w, width, u.device, t.e);
  }

  lemma StaysNormal(w: World, width: IntWidth, d: Device, e: Event)
    requires BootChain.Enabled(w, width, d, e) && !Boots(e) && BootChain.Apply(w, width, d, e).running.Normal?
    ensures Continues(e) && d.running.Normal?
  {
  }

  lemma AttemptsStep(w: World, width: IntWidth, u: State, t: Step)
    requires Enabled(w, width, u, t) && (u.device.running.Normal? ==> AttemptsOk(u))
    ensures Apply(w, width, u, t).device.running.Normal? ==> AttemptsOk(Apply(w, width, u, t))
  {
    if t.Ssh? {
      AttemptsBySsh(w, width, u, t);
    } else if Boots(t.e) {
      AttemptsByBoot(w, width, u, t);
    } else if BootChain.Apply(w, width, u.device, t.e).running.Normal? {
      StaysNormal(w, width, u.device, t.e);
      if t.e.Arrive? || t.e.Reject? || t.e.Lock? || t.e.GiveUp? {
        AttemptsByEntry(w, width, u, t);
      } else if t.e.SaveFails? || t.e.LoadFails? {
        AttemptsByLeave(w, width, u, t);
      } else {
        AttemptsByProgress(w, width, u, t);
      }
    }
  }

  lemma SshStep(w: World, width: IntWidth, u: State, t: Step)
    requires S.Inv(u.ssh) && Enabled(w, width, u, t)
    ensures
      var u' := Apply(w, width, u, t);
      S.Inv(u'.ssh) && (t.Ssh? || !Boots(t.e) ==> u'.ssh.setup == u.ssh.setup)
  {
    if t.Ssh? {
      S.InvStep(u.ssh, t.step);
      S.SetupStays(u.ssh, t.step);
    } else if Boots(t.e) {
      S.BootInv(Apply(w, width, u, t).ssh.setup);
    } else if u.device.running.Normal? && SshPart(t.e).Some? {
      S.InvStep(u.ssh, SshPart(t.e).value);
      S.SetupStays(u.ssh, SshPart(t.e).value);
    }
  }

  /** Whoever reboots through the normal handler is past the SSH step. */
  lemma StagedIsQuiet(w: World, width: IntWidth, u: State, id: nat)
    requires Inv(w, width, u) && u.device.running.Normal?
    requires id in u.device.attempts && u.device.attempts[id].Staged?
    ensures S.Quiet(u.ssh)
  {
    S.PastIsQuiet(u.ssh, id);
  }

  lemma SetupsByBoot(w: World, width: IntWidth, u: State, t: Step)
    requires SetupsOk(w, u) && Enabled(w, width, u, t) && t.Chain? && Boots(t.e)
    ensures SetupsOk(w, Apply(w, width, u, t))
  {
    var u' := Apply(w, width, u, t);
    BootAdds(w, width, u.device, t.e);
    forall i | 0 <= i < |u'.setups|
      ensures SetupOfBoot(w, u'.device.boots[i], u'.setups[i])
    {
      if i < |u.setups| {
        assert SetupOfBoot(w, u.device.boots[i], u.setups[i]);
      }
    }
  }

  lemma NormalBootsGrow(boots: seq<Boot>, setups: seq<S.Setup>, b: Boot, setup: S.Setup)
    requires NormalBootsOk(boots, setups) && |boots| == |setups| > 0
    requires b.Kexec? && b.from.Normal? ==> setups[|setups| - 1] != S.SpawnFailed
    ensures NormalBootsOk(boots + [b], setups + [setup])
  {
  }

  lemma BootAppends(w: World, width: IntWidth, u: State, t: Step)
    requires Enabled(w, width, u, t) && t.Chain? && Boots(t.e)
    ensures
      var u' := Apply(w, width, u, t);
      && |u'.device.boots| == |u.device.boots| + 1
      && u'.device.boots == u.device.boots + [u'.device.boots[|u.device.boots|]]
      && u'.setups == u.setups + [u'.ssh.setup]
  {
    BootAdds(w, width, u.device, t.e);
  }

  lemma NormalBootsByBoot(w: World, width: IntWidth, u: State, t: Step)
    requires SetupsOk(w, u) && NormalBootsOk(u.device.boots, u.setups)
    requires Enabled(w, width, u, t) && t.Chain? && Boots(t.e)
    requires t.e.Reboot? && u.device.running.Normal? ==> S.Quiet(u.ssh)
    ensures NormalBootsOk(Apply(w, width, u, t).device.boots, Apply(w, width, u, t).setups)
  {
    var u' := Apply(w, width, u, t);
    BootAdds(w, width, u.device, t.e);
    BootAppends(w, width, u, t);
    NormalBootsGrow(u.device.boots, u.setups, u'.device.boots[|u.device.boots|], u'.ssh.setup);
  }

  lemma SetupsStep(w: World, width: IntWidth, u: State, t: Step)
    requires Inv(w, width, u) && Enabled(w, width, u, t)
    ensures SetupsOk(w, Apply(w, width, u, t))
    ensures NormalBootsOk(Apply(w, width, u, t).device.boots, Apply(w, width, u, t).setups)
  {
    if t.Chain? && Boots(t.e) {
      SetupsByBoot(w, width, u, t);
      if t.e.Reboot? && u.device.running.Normal? {
        StagedIsQuiet(w, width, u, t.e.id);
      }
      NormalBootsByBoot(w, width, u, t);
    } else {
      SshStep(w, width, u, t);
      if t.Chain? {
        BootAdds(w, width, u.device, t.e);
      }
    }
  }

  lemma InvStep(w: World, width: IntWidth, u: State, t: Step)
    requires JsonHasNoZero(w) && Inv(w, width, u) && Enabled(w, width, u, t)
    ensures Inv(w, width, Apply(w, width, u, t))
  {
    if t.Chain? {
      BootChain.StagesStep(w, width, u.device, t.e);
    }
    SshStep(w, width, u, t);
    AttemptsStep(w, width, u, t);
    SetupsStep(w, width, u, t);
  }

  lemma {:induction false} RunKeepsInv(w: World, width: IntWidth, u0: State, ts: seq<Step>)
    requires JsonHasNoZero(w) && Run(w, width, u0, ts)
    ensures Inv(w, width, Final(w, width, u0, ts))
  {
    if ts == [] {
      assert SetupOfBoot(w, u0.device.boots[0], u0.setups[0]);
    } else {
      RunKeepsInv(w, width, u0, ts[..|ts| - 1]);
      InvStep(w, width, Final(w, width, u0, ts[..|ts| - 1]), ts[|ts| - 1]);
    }
  }

  /**
   Wherever a reboot through the normal handler is possible, under any interleaving of attempts,
   supervisor, watchers and processes, the supervisor has ended and every dropbear it started is
   reaped or has been sent SIGKILL.
   */
  lemma RebootIsQuiet(w: World, width: IntWidth, u0: State, ts: seq<Step>, t: Step)
    requires JsonHasNoZero(w) && Run(w, width, u0, ts)
    requires Enabled(w, width, Final(w, width, u0, ts), t) && t.Chain? && t.e.Reboot?
    requires Final(w, width, u0, ts).device.running.Normal?
    ensures S.Quiet(Final(w, width, u0, ts).ssh)
  {
    RunKeepsInv(w, width, u0, ts);
    StagedIsQuiet(w, width, Final(w, width, u0, ts), t.e.id);
  }

  /** A config whose SSH server can be started, or that has none. */
  predicate HostKeyOk(w: World, config: Option<Bytes>) {
    config.Some? && w.hostKey(config.value).Some? ==> Base64.DecodeString(w.hostKey(config.value).value).Some?
  }

  /**
   No device ever leaves, by the normal handler, a config whose host key does not decode: every
   such boot of every run follows a boot whose config has a good host key or none.
   */
  lemma NormalBootsNeedHostKey(w: World, width: IntWidth, u0: State, ts: seq<Step>, i: nat)
    requires JsonHasNoZero(w) && Run(w, width, u0, ts)
    requires i + 1 < |Final(w, width, u0, ts).device.boots|
    requires
      var b := Final(w, width, u0, ts).device.boots[i + 1];
      b.Kexec? && b.from.Normal?
    ensures HostKeyOk(w, Final(w, width, u0, ts).device.boots[i].config)
  {
    RunKeepsInv(w, width, u0, ts);
    var u := Final(w, width, u0, ts);
    assert u.setups[i + 1 - 1] != S.SpawnFailed;
    assert SetupOfBoot(w, u.device.boots[i], u.setups[i]);
  }

  // ----- when the normal handler can upgrade -----

  function Plain(e: Event): Step {
    Chain(e, true, true)
  }

  lemma FreshId(taken: set<nat>) returns (id: nat)
    ensures forall x :: x in taken ==> x < id
    decreases |taken|
  {
    if taken == {} {
      id := 0;
    } else {
      var x :| x in taken;
      var rest := taken - {x};
      assert taken == rest + {x};
      id := FreshId(rest);
      id := if x < id then id else x + 1;
    }
  }

  lemma UnlockedHasNoSsh(w: World, width: IntWidth, u: State)
    requires Inv(w, width, u) && u.device.running.Normal? && !u.device.locked
    ensures u.ssh.attempts == map[]
  {
    forall i | i in u.device.attempts
      ensures !PastVet(u.device.attempts[i])
    {
      assert StageOk(w, width, u.device, u.device.attempts[i]);
    }
  }

  /** An attempt on an unlocked device takes the lock. */
  lemma AttemptLocks(w: World, width: IntWidth, u0: State, ts: seq<Step>) returns (ts': seq<Step>, id: nat)
    requires Run(w, width, u0, ts)
    requires
      var d := Final(w, width, u0, ts).device;
      KeyOf(d.running).Some? && !d.locked
    ensures ts <= ts' && Run(w, width, u0, ts')
    ensures
      var u, u' := Final(w, width, u0, ts), Final(w, width, u0, ts');
      && u'.device.running == u.device.running && u'.device.boots == u.device.boots
      && u'.setups == u.setups && u'.ssh == u.ssh
      && id in u'.device.attempts && u'.device.attempts[id] == Holding
  {
    id := FreshId(Final(w, width, u0, ts).device.attempts.Keys);
    ts' := Extend(w, width, u0, ts, Plain(Arrive(id)));
    ts' := Extend(w, width, u0, ts', Plain(Lock(id)));
  }

  /** And it unseals its package. */
  lemma AttemptVets(w: World, width: IntWidth, u0: State, ts: seq<Step>, req: Request, pkg: Package)
      returns (ts': seq<Step>, id: nat)
    requires JsonHasNoZero(w) && Run(w, width, u0, ts)
    requires
      var d := Final(w, width, u0, ts).device;
      d.running.Normal? && !d.locked && OpensFor(w, width, d.running, req, pkg)
    ensures ts <= ts' && Run(w, width, u0, ts')
    ensures
      var u, u' := Final(w, width, u0, ts), Final(w, width, u0, ts');
      && u'.device.running == u.device.running && u'.device.boots == u.device.boots && u'.setups == u.setups
      && id in u'.device.attempts && u'.device.attempts[id] == Vetted(pkg)
      && id in u'.ssh.attempts && u'.ssh.attempts[id] == S.Holding
  {
    RunKeepsInv(w, width, u0, ts);
    UnlockedHasNoSsh(w, width, Final(w, width, u0, ts));
    ts', id := AttemptLocks(w, width, u0, ts);
    ts' := Extend(w, width, u0, ts', Plain(Vet(id, req, pkg)));
  }

  /** Nothing of the device changes while the supervisor ends. */
  lemma {:induction false} AwaitSsh(w: World, width: IntWidth, u0: State, ts: seq<Step>, id: nat)
      returns (ts': seq<Step>)
    requires JsonHasNoZero(w) && Run(w, width, u0, ts)
    requires
      var u := Final(w, width, u0, ts);
      && u.device.running.Normal? && u.ssh.setup != S.SpawnFailed
      && id in u.ssh.attempts && u.ssh.attempts[id] == S.Awaiting
    ensures ts <= ts' && Run(w, width, u0, ts')
    ensures
      var u, u' := Final(w, width, u0, ts), Final(w, width, u0, ts');
      && u'.device == u.device && u'.setups == u.setups
      && id in u'.ssh.attempts && u'.ssh.attempts[id] == S.Past
    decreases S.Measure(Final(w, width, u0, ts).ssh)
  {
    var u := Final(w, width, u0, ts);
    RunKeepsInv(w, width, u0, ts);
    if u.ssh.completion {
      ts' := Extend(w, width, u0, ts, Ssh(S.Proceed(id)));
    } else {
      var e := S.NotStuck(u.ssh);
      S.MeasureFalls(u.ssh, e);
      S.SetupStays(u.ssh, e);
      S.InternalKeepsAttempts(u.ssh, e);
      ts' := Extend(w, width, u0, ts, Ssh(e));
      ts' := AwaitSsh(w, width, u0, ts', id);
    }
  }

  lemma AttemptPassesSsh(w: World, width: IntWidth, u0: State, ts: seq<Step>, id: nat) returns (ts': seq<Step>)
    requires JsonHasNoZero(w) && Run(w, width, u0, ts)
    requires
      var u := Final(w, width, u0, ts);
      && u.device.running.Normal? && u.ssh.setup != S.SpawnFailed
      && id in u.ssh.attempts && u.ssh.attempts[id] == S.Holding
    ensures ts <= ts' && Run(w, width, u0, ts')
    ensures
      var u, u' := Final(w, width, u0, ts), Final(w, width, u0, ts');
      && u'.device == u.device && u'.setups == u.setups
      && id in u'.ssh.attempts && u'.ssh.attempts[id] == S.Past
  {
    if Final(w, width, u0, ts).ssh.handle {
      ts' := Extend(w, width, u0, ts, Ssh(S.CloseKill(id)));
      ts' := AwaitSsh(w, width, u0, ts', id);
    } else {
      ts' := Extend(w, width, u0, ts, Ssh(S.Skip(id)));
    }
  }

  lemma AttemptStages(w: World, width: IntWidth, u0: State, ts: seq<Step>, id: nat, pkg: Package)
      returns (ts': seq<Step>)
    requires Run(w, width, u0, ts)
    requires
      var d := Final(w, width, u0, ts).device;
      id in d.attempts && d.attempts[id] == Quiesced(pkg)
    requires pkg.kernel != [] && Ocram.Fits(pkg.config)
    ensures ts <= ts' && Run(w, width, u0, ts')
    ensures
      var d, d' := Final(w, width, u0, ts).device, Final(w, width, u0, ts').device;
      && d'.running == d.running && d'.boots == d.boots
      && id in d'.attempts && d'.attempts[id] == Staged(pkg)
  {
    ts' := Extend(w, width, u0, ts, Plain(Save(id)));
    ts' := Extend(w, width, u0, ts', Plain(Load(id)));
  }

  lemma AttemptReboots(w: World, width: IntWidth, u0: State, ts: seq<Step>, id: nat, pkg: Package)
      returns (ts': seq<Step>)
    requires Run(w, width, u0, ts)
    requires
      var d := Final(w, width, u0, ts).device;
      id in d.attempts && d.attempts[id] == Staged(pkg)
    ensures ts <= ts' && Run(w, width, u0, ts')
    ensures
      var d, d' := Final(w, width, u0, ts).device, Final(w, width, u0, ts').device;
      && |d'.boots| == |d.boots| + 1
      && d'.boots[|d.boots|].Kexec? && d'.boots[|d.boots|].from == d.running && d'.boots[|d.boots|].pkg == pkg
  {
    ts' := Extend(w, width, u0, ts, Plain(Reboot(id, None)));
  }

  /** The first boot after `ts` is a kexec into this package by the normal handler. */
  ghost predicate NextNormalBootIs(w: World, width: IntWidth, u0: State, ts: seq<Step>, more: seq<Step>, pkg: Package) {
    && Run(w, width, u0, ts) && Run(w, width, u0, ts + more)
    && var n, boots := |Final(w, width, u0, ts).device.boots|, Final(w, width, u0, ts + more).device.boots;
       n < |boots| && boots[n].Kexec? && boots[n].from.Normal? && boots[n].pkg == pkg
  }

  lemma {:induction false} SetupsGrow(w: World, width: IntWidth, u0: State, ts: seq<Step>, more: seq<Step>)
    requires Run(w, width, u0, ts) && Run(w, width, u0, ts + more)
    ensures Final(w, width, u0, ts).setups <= Final(w, width, u0, ts + more).setups
    ensures Final(w, width, u0, ts).device.boots <= Final(w, width, u0, ts + more).device.boots
  {
    if more == [] {
      assert ts + more == ts;
    } else {
      var before, t := ts + more[..|more| - 1], more[|more| - 1];
      assert (ts + more)[..|ts + more| - 1] == before;
      SetupsGrow(w, width, u0, ts, more[..|more| - 1]);
      if t.Chain? {
        BootAdds(w, width, Final(w, width, u0, before).device, t.e);
      }
    }
  }

  /** What is needed of the package, whoever boots it. */
  ghost predicate Bootable(w: World, width: IntWidth, r: Running, pkg: Package) {
    VettedFor(w, width, r, pkg) && pkg.kernel != [] && Ocram.Fits(pkg.config)
  }

  /** A next boot by the normal handler is one by the handler that is running now. */
  lemma NextIsVetted(w: World, width: IntWidth, boots: seq<Boot>, r: Running, boots': seq<Boot>, r': Running)
    requires ChainOk(w, width, boots, r) && r.Normal? && ChainOk(w, width, boots', r')
    requires boots < boots' && boots'[|boots|].Kexec? && boots'[|boots|].from.Normal?
    ensures Bootable(w, width, r, boots'[|boots|].pkg)
  {
    var n := |boots|;
    assert BootOk(w, width, boots'[n]) && Decays(boots'[n - 1].to, boots'[n].from);
    assert boots'[n - 1] == boots[n - 1];
  }

  lemma NormalBootNeeds(w: World, width: IntWidth, u0: State, ts: seq<Step>, more: seq<Step>, pkg: Package)
    requires JsonHasNoZero(w) && NextNormalBootIs(w, width, u0, ts, more, pkg)
    requires Final(w, width, u0, ts).device.running.Normal?
    ensures Final(w, width, u0, ts).ssh.setup != S.SpawnFailed
    ensures Bootable(w, width, Final(w, width, u0, ts).device.running, pkg)
  {
    var u, u' := Final(w, width, u0, ts), Final(w, width, u0, ts + more);
    var n := |u.device.boots|;
    SetupsGrow(w, width, u0, ts, more);
    RunKeepsInv(w, width, u0, ts);
    RunKeepsInv(w, width, u0, ts + more);
    assert u'.setups[n - 1] == u.setups[n - 1];
    ChainHolds(w, width, u0, ts);
    ChainHolds(w, width, u0, ts + more);
    NextIsVetted(w, width, u.device.boots, u.device.running, u'.device.boots, u'.device.running);
  }

  lemma ChainHolds(w: World, width: IntWidth, u0: State, ts: seq<Step>)
    requires JsonHasNoZero(w) && Run(w, width, u0, ts)
    ensures ChainOk(w, width, Final(w, width, u0, ts).device.boots, Final(w, width, u0, ts).device.running)
  {
    RunsChain(w, width, u0, ts);
    BootChain.RunKeepsInv(w, width, u0.device, ChainPart(ts));
  }

  /**
   When the normal handler can upgrade: whenever the lock is free, the next boot can be a kexec
   into a given package by the normal handler if and only if `Spawn` did not fail at the last
   boot and the handler opens some request to the package, whose kernel is not empty and whose
   config fits. Whatever the supervisor is doing, it can be ended.
   */
  lemma NormalUpgradeIff(w: World, width: IntWidth, u0: State, ts: seq<Step>, pkg: Package)
    requires JsonHasNoZero(w) && Run(w, width, u0, ts)
    requires Final(w, width, u0, ts).device.running.Normal? && !Final(w, width, u0, ts).device.locked
    ensures (exists more :: NextNormalBootIs(w, width, u0, ts, more, pkg))
       <==> && Final(w, width, u0, ts).ssh.setup != S.SpawnFailed
            && Bootable(w, width, Final(w, width, u0, ts).device.running, pkg)
  {
    var u := Final(w, width, u0, ts);
    if more :| NextNormalBootIs(w, width, u0, ts, more, pkg) {
      NormalBootNeeds(w, width, u0, ts, more, pkg);
    }
    if u.ssh.setup != S.SpawnFailed && Bootable(w, width, u.device.running, pkg) {
      var more := NormalUpgrade(w, width, u0, ts, pkg);
    }
  }

  lemma NormalUpgrade(w: World, width: IntWidth, u0: State, ts: seq<Step>, pkg: Package) returns (more: seq<Step>)
    requires JsonHasNoZero(w) && Run(w, width, u0, ts)
    requires
      var u := Final(w, width, u0, ts);
      && u.device.running.Normal? && !u.device.locked
      && u.ssh.setup != S.SpawnFailed && Bootable(w, width, u.device.running, pkg)
    ensures NextNormalBootIs(w, width, u0, ts, more, pkg)
  {
    var u := Final(w, width, u0, ts);
    var req :| OpensFor(w, width, u.device.running, req, pkg);
    var ts', id := AttemptVets(w, width, u0, ts, req, pkg);
    SameSetup(w, width, u0, ts, ts');
    ts' := AttemptPassesSsh(w, width, u0, ts', id);
    ts' := Extend(w, width, u0, ts', Plain(Quiesce(id)));
    ts' := AttemptStages(w, width, u0, ts', id, pkg);
    ts' := AttemptReboots(w, width, u0, ts', id, pkg);
    more := ts'[|ts|..];
    assert ts + more == ts';
  }

  lemma SameSetup(w: World, width: IntWidth, u0: State, ts: seq<Step>, ts': seq<Step>)
    requires JsonHasNoZero(w) && Run(w, width, u0, ts) && Run(w, width, u0, ts')
    requires Final(w, width, u0, ts).setups == Final(w, width, u0, ts').setups
    ensures Final(w, width, u0, ts).ssh.setup == Final(w, width, u0, ts').ssh.setup
  {
    RunKeepsInv(w, width, u0, ts);
    RunKeepsInv(w, width, u0, ts');
  }
}
