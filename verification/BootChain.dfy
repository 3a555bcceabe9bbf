/**
 The upgrade chain: any number of concurrent kexec attempts on a running device, each of
 which may be rejected, fail half-way or reboot into the package it unsealed, over any
 number of boots, crashes into the emergency handler and power losses.

 Each step of an attempt is one event; a run is a sequence of enabled events. Packages open
 under the key of the configuration that the device booted with; the emergency handler finds
 that key in a file that the normal one left for it.
 */
module BootChain {
  import opened Common
  import opened Layout
  import opened Kexec
  import Base64
  import Ocram

  /** What serves upgrades: the normal handler, disabled without a key, or the emergency handler. */
  datatype Running = Normal(version: int, key: Option<Bytes>) | Emergency(emergencyKey: Bytes) | Halted

  /** The version below which the handler refuses to go. */
  function Threshold(r: Running): int {
    if r.Normal? then r.version else 1
  }

  /** The key that the handler opens packages with. */
  function KeyOf(r: Running): Option<Bytes> {
    match r
    case Normal(_, key) => key
    case Emergency(key) => Some(key)
    case Halted => None
  }

  const KEY_SIZE := 32

  /** The key in a configuration, if it decodes to the right number of bytes. */
  function KeyIn(w: World, config: Bytes): Option<Bytes> {
    var key := Base64.DecodeString(w.keyText(config));
    if key.Some? && |key.value| == KEY_SIZE then key else None
  }

  /** What the init script comes to when a handler dies: the emergency handler runs once, if it can read its key. */
  function Fallback(r: Running): Running {
    if r.Normal? && r.key.Some? then Emergency(r.key.value) else Halted
  }

  /** How far an attempt has come; `pkg` is what it unsealed. */
  datatype Stage =
    | Arrived
    | Holding
    | Vetted(pkg: Package)
    | Quiesced(pkg: Package)
    | Saved(pkg: Package)
    | Staged(pkg: Package)

  /** A boot and the config it read; without any the loader makes a fatal exit. */
  datatype Boot =
    | Kexec(from: Running, pkg: Package, kernel: Option<Bytes>, config: Option<Bytes>, to: Running)
    | Cold(config: Option<Bytes>, to: Running)

  datatype Device = Device(
    running: Running,
    locked: bool,
    attempts: map<nat, Stage>,
    ocram: Ocram.Region,
    kernel: Option<Bytes>,  // image loaded for the next kexec reboot
    boots: seq<Boot>)

  /** What a client posts: a sealed blob and perhaps an external signature. */
  datatype Request = Request(blob: Bytes, extSig: string)

  /** The running handler opens this request to this package: under its own key, at its own threshold. */
  ghost predicate OpensFor(w: World, width: IntWidth, r: Running, req: Request, pkg: Package) {
    KeyOf(r).Some? && Opens(w, width, Threshold(r), KeyOf(r).value, req.blob, req.extSig, pkg)
  }

  datatype Event =
    | Arrive(id: nat)
    | Reject(id: nat)                 // the lock is taken
    | Lock(id: nat)
    | GiveUp(id: nat)                 // too big, unreadable, refused, or a recovered panic
    | Vet(id: nat, req: Request, pkg: Package)
    | Quiesce(id: nat)                // SSH and user processes gone, disks unmounted
    | SaveFails(id: nat)
    | Save(id: nat)
    | LoadFails(id: nat, keeps: bool) // or a recovered panic on an empty kernel
    | Load(id: nat)
    | Reboot(id: nat, serial: Option<Bytes>)
    | RebootFails(id: nat)
    | Crash
    | PowerLoss(cold: Device)

  /**
   What runs after a boot with this config. Without a valid one the process ends before it has
   left a key for the emergency handler.
   */
  function Booted(w: World, config: Option<Bytes>): Running {
    if config.Some? && w.initOk(config.value) && w.version(config.value).Some?
    then Normal(w.version(config.value).value, KeyIn(w, config.value))
    else Halted
  }

  /** A device just booted from power-on. */
  ghost predicate Start(w: World, d: Device) {
    && d.attempts == map[] && !d.locked && d.kernel == None
    && |d.boots| == 1 && d.boots[0].Cold?
    && d.running == d.boots[0].to == Booted(w, d.boots[0].config)
  }

  ghost predicate Enabled(w: World, width: IntWidth, d: Device, e: Event) {
    match e
    case Arrive(id) => KeyOf(d.running).Some? && id !in d.attempts
    case Reject(id) => id in d.attempts && d.attempts[id].Arrived? && d.locked
    case Lock(id) => id in d.attempts && d.attempts[id].Arrived? && !d.locked
    case GiveUp(id) => id in d.attempts && d.attempts[id].Holding?
    case Vet(id, req, pkg) =>
      id in d.attempts && d.attempts[id].Holding? && OpensFor(w, width, d.running, req, pkg)
    case Quiesce(id) => id in d.attempts && d.attempts[id].Vetted?
    case SaveFails(id) => id in d.attempts && d.attempts[id].Quiesced?
    case Save(id) => id in d.attempts && d.attempts[id].Quiesced? && Ocram.Fits(d.attempts[id].pkg.config)
    case LoadFails(id, _) => id in d.attempts && d.attempts[id].Saved?
    case Load(id) => id in d.attempts && d.attempts[id].Saved? && d.attempts[id].pkg.kernel != []
    case Reboot(id, _) => id in d.attempts && d.attempts[id].Staged?
    case RebootFails(id) => id in d.attempts && d.attempts[id].Staged?
    case Crash => !d.running.Halted?
    case PowerLoss(cold) => Start(w, cold)
  }

  /** The attempt ends and its deferred unlock runs. */
  function Leave(d: Device, id: nat): Device {
    d.(attempts := d.attempts - {id}, locked := false)
  }

  function Advance(d: Device, id: nat, s: Stage): Device {
    d.(attempts := d.attempts[id := s])
  }

  /** The process dies with its attempts and its lock. */
  function Exit(d: Device): Device {
    d.(running := Fallback(d.running), attempts := map[], locked := false)
  }

  /** The config a booting kernel reads: the one in on-chip memory, or else one from the serial line. */
  function ConfigRead(w: World, ocram: Ocram.Region, serial: Option<Bytes>): Option<Bytes> {
    var saved := Ocram.Loaded(w.sha, ocram);
    if saved.Some? then saved else serial
  }

  function SaveConfig(w: World, d: Device, id: nat, pkg: Package): Device
    requires Ocram.Fits(pkg.config)
  {
    var ocram := Ocram.Written(w.sha, d.ocram, pkg.config);
    Device(d.running, d.locked, d.attempts[id := Saved(pkg)], ocram, d.kernel, d.boots)
  }

  function LoadKernel(d: Device, id: nat, pkg: Package): Device {
    Advance(d, id, Staged(pkg)).(kernel := Some(pkg.kernel))
  }

  /** The loaded kernel starts with this config and leaves the region wiped. */
  function BootInto(w: World, d: Device, pkg: Package, config: Option<Bytes>): Device {
    var to := Booted(w, config);
    Device(to, false, map[], Ocram.Wiped(), None, d.boots + [Kexec(d.running, pkg, d.kernel, config, to)])
  }

  ghost function Apply(w: World, width: IntWidth, d: Device, e: Event): Device
    requires Enabled(w, width, d, e)
  {
    match e
    case Arrive(id) => Advance(d, id, Arrived)
    case Reject(id) => d.(attempts := d.attempts - {id})
    case Lock(id) => Advance(d, id, Holding).(locked := true)
    case GiveUp(id) => Leave(d, id)
    case Vet(id, _, pkg) => Advance(d, id, Vetted(pkg))
    case Quiesce(id) => Advance(d, id, Quiesced(d.attempts[id].pkg))
    case SaveFails(id) => Leave(d, id)
    case Save(id) => SaveConfig(w, d, id, d.attempts[id].pkg)
    case LoadFails(id, keeps) => Leave(d, id).(kernel := if keeps then d.kernel else None)
    case Load(id) => LoadKernel(d, id, d.attempts[id].pkg)
    case Reboot(id, serial) => BootInto(w, d, d.attempts[id].pkg, ConfigRead(w, d.ocram, serial))
    case RebootFails(id) => Exit(d)
    case Crash => Exit(d)
    case PowerLoss(cold) => cold.(boots := d.boots + cold.boots)
  }

  // ----- runs -----

  /** The device after these events, if each of them was enabled in its turn. */
  ghost function Exec(w: World, width: IntWidth, d0: Device, es: seq<Event>): Option<Device> {
    if es == [] then (if Start(w, d0) then Some(d0) else None)
    else
      var before := Exec(w, width, d0, es[..|es| - 1]);
      if before.Some? && Enabled(w, width, before.value, es[|es| - 1])
      then Some(Apply(w, width, before.value, es[|es| - 1]))
      else None
  }

  ghost predicate Run(w: World, width: IntWidth, d0: Device, es: seq<Event>) {
    Exec(w, width, d0, es).Some?
  }

  ghost function Final(w: World, width: IntWidth, d0: Device, es: seq<Event>): Device
    requires Run(w, width, d0, es)
  {
    Exec(w, width, d0, es).value
  }

  lemma Extend(w: World, width: IntWidth, d0: Device, es: seq<Event>, e: Event) returns (es': seq<Event>)
    requires Run(w, width, d0, es) && Enabled(w, width, Final(w, width, d0, es), e)
    ensures es' == es + [e]
    ensures Run(w, width, d0, es')
    ensures Final(w, width, d0, es') == Apply(w, width, Final(w, width, d0, es), e)
  {
    es' := es + [e];
    assert es'[..|es'| - 1] == es;
  }

  predicate Boots(e: Event) {
    e.Reboot? || e.PowerLoss?
  }

  /** A boot is added at the end, and nothing else changes what was booted before. */
  lemma BootAdds(w: World, width: IntWidth, d: Device, e: Event)
    requires Enabled(w, width, d, e)
    ensures
      var d' := Apply(w, width, d, e);
      if Boots(e)
      then
        && |d'.boots| == |d.boots| + 1 && d.boots <= d'.boots && d'.attempts == map[]
        && (d'.boots[|d.boots|].Kexec? ==> e.Reboot? && d'.boots[|d.boots|].from == d.running)
      else d'.boots == d.boots
  {
    if e.PowerLoss? {
      assert Apply(w, width, d, e).boots == d.boots + [e.cold.boots[0]];
    }
  }

  // ----- what every run keeps -----

  ghost predicate VettedFor(w: World, width: IntWidth, r: Running, pkg: Package) {
    exists req :: OpensFor(w, width, r, req, pkg)
  }

  /** What is true of an attempt at its stage, given the device around it. */
  ghost predicate StageOk(w: World, width: IntWidth, d: Device, s: Stage) {
    && (!s.Arrived? ==> d.locked)
    && (!s.Arrived? && !s.Holding? ==> VettedFor(w, width, d.running, s.pkg))
    && (s.Saved? || s.Staged? ==>
          Ocram.Fits(s.pkg.config) && Ocram.Loaded(w.sha, d.ocram) == Some(s.pkg.config))
    && (s.Staged? ==> s.pkg.kernel != [] && d.kernel == Some(s.pkg.kernel))
  }

  /** Every boot runs the config it read; a kexec boot took it, and its kernel, from one vetted package. */
  ghost predicate BootOk(w: World, width: IntWidth, b: Boot) {
    && b.to == Booted(w, b.config)
    && (b.Kexec? ==>
          && VettedFor(w, width, b.from, b.pkg)
          && b.kernel == Some(b.pkg.kernel) && b.pkg.kernel != []
          && b.config == Some(b.pkg.config) && Ocram.Fits(b.pkg.config))
  }

  /** Between boots the handler can only fall to the emergency handler, which has its key, or stop. */
  predicate Decays(r: Running, r': Running) {
    r == r' || r' == Fallback(r) || r' == Halted
  }

  ghost predicate BootsOk(w: World, width: IntWidth, boots: seq<Boot>) {
    && (forall i :: 0 <= i < |boots| ==> BootOk(w, width, boots[i]))
    && (forall i :: 0 < i < |boots| && boots[i].Kexec? ==> Decays(boots[i - 1].to, boots[i].from))
  }

  /** Every attempt is as its stage says, and at most one of them is past the lock. */
  ghost predicate StagesOk(w: World, width: IntWidth, d: Device) {
    && (forall id :: id in d.attempts ==> StageOk(w, width, d, d.attempts[id]))
    && (forall i, j ::
          i in d.attempts && j in d.attempts && !d.attempts[i].Arrived? && !d.attempts[j].Arrived? ==> i == j)
  }

  ghost predicate ChainOk(w: World, width: IntWidth, boots: seq<Boot>, running: Running) {
    && BootsOk(w, width, boots)
    && |boots| > 0
    && Decays(boots[|boots| - 1].to, running)
  }

  ghost predicate Inv(w: World, width: IntWidth, d: Device) {
    StagesOk(w, width, d) && ChainOk(w, width, d.boots, d.running)
  }

  lemma VettedHasNoZero(w: World, width: IntWidth, r: Running, pkg: Package)
    requires JsonHasNoZero(w) && VettedFor(w, width, r, pkg)
    ensures 0 !in pkg.config && NotRolledBack(w, Threshold(r), pkg)
  {
    var req :| OpensFor(w, width, r, req, pkg);
    var sig, data :| Accepts(w, width, Threshold(r), KeyOf(r).value, req.blob, req.extSig, sig, data, pkg);
  }

  predicate EndsProcess(e: Event) {
    e.Reboot? || e.RebootFails? || e.Crash? || e.PowerLoss?
  }

  lemma StagesByEntry(w: World, width: IntWidth, d: Device, e: Event)
    requires StagesOk(w, width, d) && Enabled(w, width, d, e)
    requires e.Arrive? || e.Reject? || e.Lock?
    ensures StagesOk(w, width, Apply(w, width, d, e))
  {
    var d' := Apply(w, width, d, e);
    forall id | id in d'.attempts
      ensures StageOk(w, width, d', d'.attempts[id])
    {
      assert id in d.attempts ==> StageOk(w, width, d, d.attempts[id]);
    }
  }

  lemma StagesByVet(w: World, width: IntWidth, d: Device, e: Event)
    requires StagesOk(w, width, d) && Enabled(w, width, d, e)
    requires e.Vet?
    ensures StagesOk(w, width, Apply(w, width, d, e))
  {
    var d' := Apply(w, width, d, e);
    assert OpensFor(w, width, d.running, e.req, e.pkg);
    forall id | id in d'.attempts
      ensures StageOk(w, width, d', d'.attempts[id])
    {
      assert id in d.attempts ==> StageOk(w, width, d, d.attempts[id]);
    }
  }

  lemma StagesByExit(w: World, width: IntWidth, d: Device, e: Event)
    requires StagesOk(w, width, d) && Enabled(w, width, d, e)
    requires e.GiveUp? || e.Quiesce? || e.SaveFails?
    ensures StagesOk(w, width, Apply(w, width, d, e))
  {
    var d' := Apply(w, width, d, e);
    forall id | id in d'.attempts
      ensures StageOk(w, width, d', d'.attempts[id])
    {
      assert id in d.attempts ==> StageOk(w, width, d, d.attempts[id]);
    }
  }

  lemma StagesBySave(w: World, width: IntWidth, d: Device, e: Event)
    requires JsonHasNoZero(w) && StagesOk(w, width, d) && Enabled(w, width, d, e)
    requires e.Save?
    ensures StagesOk(w, width, Apply(w, width, d, e))
  {
    var d', pkg := Apply(w, width, d, e), d.attempts[e.id].pkg;
    assert StageOk(w, width, d, d.attempts[e.id]);
    VettedHasNoZero(w, width, d.running, pkg);
    Ocram.HandOffExact(w.sha, d.ocram, pkg.config);
    forall id | id in d'.attempts
      ensures StageOk(w, width, d', d'.attempts[id])
    {
      assert id != e.id ==> d.attempts[id].Arrived?;
    }
  }

  lemma StagesByLoad(w: World, width: IntWidth, d: Device, e: Event)
    requires StagesOk(w, width, d) && Enabled(w, width, d, e)
    requires e.LoadFails? || e.Load?
    ensures StagesOk(w, width, Apply(w, width, d, e))
  {
    var d' := Apply(w, width, d, e);
    assert StageOk(w, width, d, d.attempts[e.id]);
    forall id | id in d'.attempts
      ensures StageOk(w, width, d', d'.attempts[id])
    {
      assert id != e.id ==> d.attempts[id].Arrived?;
    }
  }

  lemma ChainGrows(w: World, width: IntWidth, boots: seq<Boot>, running: Running, b: Boot)
    requires ChainOk(w, width, boots, running)
    requires BootOk(w, width, b) && (b.Kexec? ==> b.from == running)
    ensures ChainOk(w, width, boots + [b], b.to)
  {
  }

  lemma ChainByReboot(w: World, width: IntWidth, d: Device, e: Event)
    requires JsonHasNoZero(w) && Inv(w, width, d) && Enabled(w, width, d, e)
    requires e.Reboot?
    ensures ChainOk(w, width, Apply(w, width, d, e).boots, Apply(w, width, d, e).running)
  {
    var pkg := d.attempts[e.id].pkg;
    assert StageOk(w, width, d, d.attempts[e.id]);
    VettedHasNoZero(w, width, d.running, pkg);
    var boots := Apply(w, width, d, e).boots;
    ChainGrows(w, width, d.boots, d.running, boots[|d.boots|]);
  }

  lemma ChainByEnd(w: World, width: IntWidth, d: Device, e: Event)
    requires ChainOk(w, width, d.boots, d.running) && Enabled(w, width, d, e)
    requires e.RebootFails? || e.Crash?
    ensures ChainOk(w, width, Apply(w, width, d, e).boots, Apply(w, width, d, e).running)
  {
  }

  lemma ChainByPowerLoss(w: World, width: IntWidth, d: Device, cold: Device)
    requires ChainOk(w, width, d.boots, d.running) && Start(w, cold)
    ensures ChainOk(w, width, d.boots + cold.boots, cold.running)
  {
    assert cold.boots == [cold.boots[0]];
    ChainGrows(w, width, d.boots, d.running, cold.boots[0]);
  }

  lemma StagesStep(w: World, width: IntWidth, d: Device, e: Event)
    requires JsonHasNoZero(w) && StagesOk(w, width, d) && Enabled(w, width, d, e)
    ensures StagesOk(w, width, Apply(w, width, d, e))
  {
    if e.Arrive? || e.Reject? || e.Lock? {
      StagesByEntry(w, width, d, e);
    } else if e.Vet? {
      StagesByVet(w, width, d, e);
    } else if e.GiveUp? || e.Quiesce? || e.SaveFails? {
      StagesByExit(w, width, d, e);
    } else if e.Save? {
      StagesBySave(w, width, d, e);
    } else if e.LoadFails? || e.Load? {
      StagesByLoad(w, width, d, e);
    }
  }

  lemma ChainStep(w: World, width: IntWidth, d: Device, e: Event)
    requires JsonHasNoZero(w) && Inv(w, width, d) && Enabled(w, width, d, e)
    ensures ChainOk(w, width, Apply(w, width, d, e).boots, Apply(w, width, d, e).running)
  {
    if e.Reboot? {
      ChainByReboot(w, width, d, e);
    } else if e.PowerLoss? {
      ChainByPowerLoss(w, width, d, e.cold);
    } else if EndsProcess(e) {
      ChainByEnd(w, width, d, e);
    }
  }

  lemma {:induction false} RunKeepsInv(w: World, width: IntWidth, d0: Device, es: seq<Event>)
    requires JsonHasNoZero(w) && Run(w, width, d0, es)
    ensures Inv(w, width, Final(w, width, d0, es))
  {
    if es != [] {
      RunKeepsInv(w, width, d0, es[..|es| - 1]);
      StagesStep(w, width, Final(w, width, d0, es[..|es| - 1]), es[|es| - 1]);
      ChainStep(w, width, Final(w, width, d0, es[..|es| - 1]), es[|es| - 1]);
    }
  }

  /**
   Kernel and config stay paired: whenever an attempt can reboot, under any interleaving of
   attempts before it, the loaded kernel and the config in on-chip memory are both those of
   the package it unsealed, and no other attempt is past the lock.
   */
  lemma RebootIsPaired(w: World, width: IntWidth, d0: Device, es: seq<Event>, id: nat, serial: Option<Bytes>)
    requires JsonHasNoZero(w) && Run(w, width, d0, es)
    requires Enabled(w, width, Final(w, width, d0, es), Reboot(id, serial))
    ensures
      var d := Final(w, width, d0, es);
      var pkg := d.attempts[id].pkg;
      && d.kernel == Some(pkg.kernel)
      && Ocram.Loaded(w.sha, d.ocram) == Some(pkg.config)
      && VettedFor(w, width, d.running, pkg)
      && forall other :: other in d.attempts && other != id ==> d.attempts[other].Arrived?
  {
    RunKeepsInv(w, width, d0, es);
  }

  // ----- what a config gives -----

  /**
   Which configs enable upgrades, and under which key: a valid one whose key text decodes to
   exactly 32 bytes, and no other; so a config without a key text leaves them disabled.
   */
  lemma KeyIff(w: World, config: Bytes, key: Bytes)
    ensures KeyOf(Booted(w, Some(config))) == Some(key)
       <==> && w.initOk(config) && w.version(config).Some?
            && |key| == 32 && Base64.DecodeString(w.keyText(config)) == Some(key)
    ensures w.keyText(config) == "" ==> KeyOf(Booted(w, Some(config))) == None
    ensures KeyOf(Booted(w, None)) == None
  {
  }

  /** What each handler opens under its key: the normal one at the version it runs, the emergency one at 1. */
  lemma HandlersOpen(w: World, width: IntWidth, version: int, key: Bytes, req: Request, pkg: Package)
    ensures OpensFor(w, width, Normal(version, Some(key)), req, pkg)
       <==> Opens(w, width, version, key, req.blob, req.extSig, pkg)
    ensures OpensFor(w, width, Emergency(key), req, pkg) <==> Opens(w, width, 1, key, req.blob, req.extSig, pkg)
    ensures !OpensFor(w, width, Normal(version, None), req, pkg) && !OpensFor(w, width, Halted, req, pkg)
  {
  }

  lemma OneRequestOnePackage(w: World, width: IntWidth, r: Running, req: Request, pkg: Package)
    requires OpensFor(w, width, r, req, pkg)
    ensures forall p :: OpensFor(w, width, r, req, p) ==> p == pkg
  {
    forall p | OpensFor(w, width, r, req, p)
      ensures p == pkg
    {
      OpensUnique(w, width, Threshold(r), Threshold(r), KeyOf(r).value, req.blob, req.extSig, p, pkg);
    }
  }

  /** A handler without a key has no attempts. */
  lemma {:induction false} NoKeyNoAttempts(w: World, width: IntWidth, d0: Device, es: seq<Event>)
    requires Run(w, width, d0, es) && KeyOf(Final(w, width, d0, es).running).None?
    ensures Final(w, width, d0, es).attempts == map[]
  {
    if es != [] {
      var before, e := Final(w, width, d0, es[..|es| - 1]), es[|es| - 1];
      if !EndsProcess(e) {
        RunningStays(w, width, before, e);
        NoKeyNoAttempts(w, width, d0, es[..|es| - 1]);
      }
    }
  }

  lemma RunningStays(w: World, width: IntWidth, d: Device, e: Event)
    requires Enabled(w, width, d, e) && !EndsProcess(e)
    ensures Apply(w, width, d, e).running == d.running
    ensures KeyOf(d.running).Some? || d.attempts != map[]
  {
  }

  /**
   There is one fallback and no second: when the normal handler dies the emergency handler takes
   over with the same key, when that dies too the device stands still, and from then on nothing
   but power can bring it back.
   */
  lemma FallsBackOnce(w: World, width: IntWidth, d0: Device, es: seq<Event>, e: Event)
    requires Run(w, width, d0, es) && Enabled(w, width, Final(w, width, d0, es), e)
    ensures
      var d := Final(w, width, d0, es);
      var d' := Apply(w, width, d, e);
      && (e.Crash? || e.RebootFails? ==>
            && !d'.locked && d'.attempts == map[]
            && d'.running == (if d.running.Normal? && d.running.key.Some?
                              then Emergency(d.running.key.value)
                              else Halted))
      && (d.running.Halted? ==> e.PowerLoss?)
      && (!EndsProcess(e) ==> d'.running == d.running)
  {
    var d := Final(w, width, d0, es);
    if !EndsProcess(e) {
      RunningStays(w, width, d, e);
    }
    if d.running.Halted? {
      NoKeyNoAttempts(w, width, d0, es);
    }
  }

  // ----- every boot goes back to a request -----

  /** Event k unsealed this package from a posted blob, on this handler's key, after n boots. */
  ghost predicate VettedAt(w: World, width: IntWidth, d0: Device, es: seq<Event>,
                           k: int, r: Running, pkg: Package, n: nat)
  {
    && 0 <= k < |es| && es[k].Vet? && es[k].pkg == pkg
    && Run(w, width, d0, es[..k])
    && Final(w, width, d0, es[..k]).running == r && |Final(w, width, d0, es[..k]).boots| == n
    && OpensFor(w, width, r, es[k].req, pkg)
  }

  ghost predicate FromVet(w: World, width: IntWidth, d0: Device, es: seq<Event>, r: Running, pkg: Package, n: nat) {
    exists k :: VettedAt(w, width, d0, es, k, r, pkg, n)
  }

  /** What the attempts and boots of a device say about the events that led to it. */
  ghost predicate AttemptsFromVet(w: World, width: IntWidth, d0: Device, es: seq<Event>, d: Device) {
    forall id :: id in d.attempts && !d.attempts[id].Arrived? && !d.attempts[id].Holding? ==>
      FromVet(w, width, d0, es, d.running, d.attempts[id].pkg, |d.boots|)
  }

  ghost predicate BootsFromVet(w: World, width: IntWidth, d0: Device, es: seq<Event>, d: Device) {
    forall i :: 0 <= i < |d.boots| && d.boots[i].Kexec? ==>
      FromVet(w, width, d0, es, d.boots[i].from, d.boots[i].pkg, i)
  }

  lemma StillFromVet(w: World, width: IntWidth, d0: Device, es: seq<Event>, e: Event, r: Running, pkg: Package, n: nat)
    requires FromVet(w, width, d0, es, r, pkg, n)
    ensures FromVet(w, width, d0, es + [e], r, pkg, n)
  {
    var k :| VettedAt(w, width, d0, es, k, r, pkg, n);
    assert (es + [e])[..k] == es[..k];
    assert VettedAt(w, width, d0, es + [e], k, r, pkg, n);
  }

  lemma BootsFromVetStep(w: World, width: IntWidth, d0: Device, es: seq<Event>, e: Event)
    requires Run(w, width, d0, es) && Enabled(w, width, Final(w, width, d0, es), e)
    requires AttemptsFromVet(w, width, d0, es, Final(w, width, d0, es))
    requires BootsFromVet(w, width, d0, es, Final(w, width, d0, es))
    ensures BootsFromVet(w, width, d0, es + [e], Apply(w, width, Final(w, width, d0, es), e))
  {
    var d := Final(w, width, d0, es);
    var d' := Apply(w, width, d, e);
    forall i | 0 <= i < |d'.boots| && d'.boots[i].Kexec?
      ensures FromVet(w, width, d0, es + [e], d'.boots[i].from, d'.boots[i].pkg, i)
    {
      assert i < |d.boots| ==> d'.boots[i] == d.boots[i];
      StillFromVet(w, width, d0, es, e, d'.boots[i].from, d'.boots[i].pkg, i);
    }
  }

  lemma NowFromVet(w: World, width: IntWidth, d0: Device, es: seq<Event>, e: Event)
    requires Run(w, width, d0, es) && Enabled(w, width, Final(w, width, d0, es), e) && e.Vet?
    ensures
      var d := Final(w, width, d0, es);
      FromVet(w, width, d0, es + [e], d.running, e.pkg, |d.boots|)
  {
    var d := Final(w, width, d0, es);
    assert (es + [e])[..|es|] == es;
    assert VettedAt(w, width, d0, es + [e], |es|, d.running, e.pkg, |d.boots|);
  }

  /** An attempt past its unsealing has just unsealed its package, or had it before. */
  lemma PackageStays(w: World, width: IntWidth, d: Device, e: Event, id: nat)
    requires Enabled(w, width, d, e) && !EndsProcess(e)
    requires
      var d' := Apply(w, width, d, e);
      id in d'.attempts && !d'.attempts[id].Arrived? && !d'.attempts[id].Holding?
    ensures
      var pkg := Apply(w, width, d, e).attempts[id].pkg;
      if e.Vet? && e.id == id then pkg == e.pkg
      else id in d.attempts && !d.attempts[id].Arrived? && !d.attempts[id].Holding? && d.attempts[id].pkg == pkg
  {
  }

  lemma AttemptFromVetStep(w: World, width: IntWidth, d0: Device, es: seq<Event>, e: Event, id: nat)
    requires Run(w, width, d0, es) && Enabled(w, width, Final(w, width, d0, es), e) && !EndsProcess(e)
    requires AttemptsFromVet(w, width, d0, es, Final(w, width, d0, es))
    requires
      var d' := Apply(w, width, Final(w, width, d0, es), e);
      id in d'.attempts && !d'.attempts[id].Arrived? && !d'.attempts[id].Holding?
    ensures
      var d := Final(w, width, d0, es);
      FromVet(w, width, d0, es + [e], d.running, Apply(w, width, d, e).attempts[id].pkg, |d.boots|)
  {
    var d := Final(w, width, d0, es);
    PackageStays(w, width, d, e, id);
    if e.Vet? && e.id == id {
      NowFromVet(w, width, d0, es, e);
    } else {
      StillFromVet(w, width, d0, es, e, d.running, d.attempts[id].pkg, |d.boots|);
    }
  }

  lemma AttemptsFromVetStep(w: World, width: IntWidth, d0: Device, es: seq<Event>, e: Event)
    requires Run(w, width, d0, es) && Enabled(w, width, Final(w, width, d0, es), e)
    requires AttemptsFromVet(w, width, d0, es, Final(w, width, d0, es))
    ensures AttemptsFromVet(w, width, d0, es + [e], Apply(w, width, Final(w, width, d0, es), e))
  {
    var d := Final(w, width, d0, es);
    var d' := Apply(w, width, d, e);
    if !EndsProcess(e) {
      RunningStays(w, width, d, e);
      BootAdds(w, width, d, e);
      forall id | id in d'.attempts && !d'.attempts[id].Arrived? && !d'.attempts[id].Holding?
        ensures FromVet(w, width, d0, es + [e], d'.running, d'.attempts[id].pkg, |d'.boots|)
      {
        AttemptFromVetStep(w, width, d0, es, e, id);
      }
    }
  }

  lemma {:induction false} RunKeepsHistory(w: World, width: IntWidth, d0: Device, es: seq<Event>)
    requires Run(w, width, d0, es)
    ensures AttemptsFromVet(w, width, d0, es, Final(w, width, d0, es))
    ensures BootsFromVet(w, width, d0, es, Final(w, width, d0, es))
  {
    if es != [] {
      var before, e := es[..|es| - 1], es[|es| - 1];
      assert es == before + [e];
      RunKeepsHistory(w, width, d0, before);
      AttemptsFromVetStep(w, width, d0, before, e);
      BootsFromVetStep(w, width, d0, before, e);
    }
  }

  /**
   Every boot of every run goes back to one request of that run: since the boot before it, the
   handler that rebooted had opened that request under its own key. A boot through the normal
   handler loads a config whose version is not below the running one, and a boot through the
   emergency handler one whose version is at least 1; both run the kernel sealed with it.
   */
  lemma BootsAreVetted(w: World, width: IntWidth, d0: Device, es: seq<Event>, i: nat)
    requires JsonHasNoZero(w) && Run(w, width, d0, es)
    requires i < |Final(w, width, d0, es).boots| && Final(w, width, d0, es).boots[i].Kexec?
    ensures
      var b := Final(w, width, d0, es).boots[i];
      && b.kernel == Some(b.pkg.kernel)
      && b.config == Some(b.pkg.config)
      && FromVet(w, width, d0, es, b.from, b.pkg, i)
      && w.version(b.pkg.config).Some?
      && (b.from.Normal? ==> w.version(b.pkg.config).value >= b.from.version)
      && (b.from.Emergency? ==> w.version(b.pkg.config).value >= 1)
      && b.to == (if w.initOk(b.pkg.config)
                  then Normal(w.version(b.pkg.config).value, KeyIn(w, b.pkg.config))
                  else Halted)
  {
    RunKeepsInv(w, width, d0, es);
    RunKeepsHistory(w, width, d0, es);
    var b := Final(w, width, d0, es).boots[i];
    assert BootOk(w, width, b);
    VettedHasNoZero(w, width, b.from, b.pkg);
    assert FromVet(w, width, d0, es, b.from, b.pkg, i);
  }

  /**
   Keys are chained: whatever boot came before a kexec boot, cold or kexec, and through either
   handler, the package was opened under the key that the config of the boot before gives.
   */
  lemma KeysAreChained(w: World, width: IntWidth, d0: Device, es: seq<Event>, i: nat)
    requires JsonHasNoZero(w) && Run(w, width, d0, es)
    requires i + 1 < |Final(w, width, d0, es).boots|
    requires Final(w, width, d0, es).boots[i + 1].Kexec?
    ensures
      var boots := Final(w, width, d0, es).boots;
      && boots[i].config.Some? && KeyIn(w, boots[i].config.value).Some?
      && KeyOf(boots[i + 1].from) == KeyIn(w, boots[i].config.value)
      && FromVet(w, width, d0, es, boots[i + 1].from, boots[i + 1].pkg, i + 1)
  {
    RunKeepsInv(w, width, d0, es);
    var boots := Final(w, width, d0, es).boots;
    BootsAreVetted(w, width, d0, es, i + 1);
    assert BootOk(w, width, boots[i]) && BootOk(w, width, boots[i + 1]);
    assert boots[i + 1].Kexec? && Decays(boots[i + 1 - 1].to, boots[i + 1].from);
  }

  /**
   Along any stretch of boots that were all made by the normal handler, whatever failed
   attempts and crashes lie between them, the version never falls.
   */
  lemma {:induction false} VersionsNeverFall(w: World, width: IntWidth, d0: Device, es: seq<Event>, i: nat, j: nat)
    requires JsonHasNoZero(w) && Run(w, width, d0, es)
    requires i <= j < |Final(w, width, d0, es).boots|
    requires
      var boots := Final(w, width, d0, es).boots;
      forall k :: i < k <= j ==> boots[k].Kexec? && boots[k].from.Normal?
    requires
      var boots := Final(w, width, d0, es).boots;
      boots[i].to.Normal? && boots[j].to.Normal?
    ensures
      var boots := Final(w, width, d0, es).boots;
      boots[i].to.version <= boots[j].to.version
    decreases j - i
  {
    if i < j {
      var boots := Final(w, width, d0, es).boots;
      RunKeepsInv(w, width, d0, es);
      assert boots[j].Kexec? && Decays(boots[j - 1].to, boots[j].from);
      VersionsNeverFall(w, width, d0, es, i, j - 1);
      BootsAreVetted(w, width, d0, es, j);
    }
  }
}
