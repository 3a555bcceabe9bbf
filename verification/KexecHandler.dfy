/**
 The upgrade handler itself, normal or emergency: one request from the lock to the reboot,
 with its side effects in the order of the code. System calls succeed or fail as the
 environment says. Whatever happens, the handler's doings are a run of the boot chain.
 */
module KexecHandler {
  import opened Common
  import opened Layout
  import opened Kexec
  import opened BootChain
  import Ocram

  /** How the environment answers during one request. */
  datatype Outcomes = Outcomes(
    contentLength: int,    // -1 when the client did not say
    bodyOk: bool,          // that many bytes could be read
    devMemOk: bool,
    mmapOk: bool,
    loadOk: bool,
    keepsOldKernel: bool,  // whether a failed kexec_load leaves the image loaded before
    rebootOk: bool,
    serial: Option<Bytes>) // what a boot would read that finds no config in the region

  datatype Status = Disabled | Busy | Failed | Died | Rebooted

  const MAX_PACKAGE := 128 * 1048576

  class Gateway {
    const w: World
    const width: IntWidth
    const ocram: array<byte>
    ghost const start: Device
    var running: Running
    var locked: bool
    var kernel: Option<Bytes>
    ghost var log: seq<Event>

    constructor (w: World, width: IntWidth, ocram: array<byte>, config: Option<Bytes>)
      requires JsonHasNoZero(w) && ocram.Length == Ocram.SIZE
      ensures Valid() && this.w == w && this.width == width && this.ocram == ocram
      ensures running == Booted(w, config) && !locked && log == [] && Chain().boots == [Cold(config, running)]
    {
      this.w, this.width, this.ocram, running := w, width, ocram, Booted(w, config);
      start := Device(Booted(w, config), false, map[], ocram[..], None, [Cold(config, Booted(w, config))]);
      locked, kernel, log := false, None, [];
    }

    ghost function Chain(): Device
      requires Run(w, width, start, log)
      reads this
    {
      Final(w, width, start, log)
    }

    ghost predicate Valid()
      reads this, ocram
    {
      && ocram.Length == Ocram.SIZE
      && JsonHasNoZero(w)
      && Run(w, width, start, log)
      && running == Chain().running && locked == Chain().locked
      && kernel == Chain().kernel && ocram[..] == Chain().ocram
    }

    /** The handler holds the lock for this request and has come this far. */
    ghost predicate Serving(id: nat, s: Stage)
      requires Run(w, width, start, log)
      reads this
    {
      locked && id in Chain().attempts && Chain().attempts[id] == s
    }

    ghost method Record(e: Event)
      requires Run(w, width, start, log) && Enabled(w, width, Chain(), e)
      modifies this`log
      ensures Run(w, width, start, log) && log == old(log) + [e]
      ensures Chain() == Apply(w, width, old(Chain()), e)
    {
      log := Extend(w, width, start, log, e);
    }

    /** Try the lock; whoever finds it taken is turned away. */
    method TryLock(id: nat) returns (ok: bool)
      requires Valid() && KeyOf(running).Some? && id !in Chain().attempts
      modifies this`locked, this`log
      ensures Valid() && old(log) <= log && locked
      ensures Chain().boots == old(Chain()).boots
      ensures ok <==> !old(locked)
      ensures if ok then Serving(id, Holding) else id !in Chain().attempts
    {
      Record(Arrive(id));
      if locked {
        Record(Reject(id));
        return false;
      }
      locked := true;
      Record(Lock(id));
      return true;
    }

    /** Take the lock, read and unseal the package, stop everything that is in the way. */
    method Admit(id: nat, req: Request, env: Outcomes) returns (pkg: Option<Package>, busy: bool)
      requires Valid() && KeyOf(running).Some? && id !in Chain().attempts
      requires FitsInMemory(w, width, KeyOf(running).value, req.blob)
      modifies this`locked, this`log
      ensures Valid() && old(log) <= log
      ensures busy <==> old(locked)
      ensures Chain().boots == old(Chain()).boots
      ensures pkg.None? ==> locked == old(locked) && id !in Chain().attempts
      ensures pkg.Some? ==> OpensFor(w, width, running, req, pkg.value)
      ensures pkg.Some? ==> 0 <= env.contentLength <= 128 * 1048576 && env.bodyOk
      ensures pkg.Some? ==> !old(locked) && Serving(id, Quiesced(pkg.value))
      ensures !old(locked) && 0 <= env.contentLength <= 128 * 1048576 && env.bodyOk && pkg.None? ==>
        !exists p :: OpensFor(w, width, running, req, p)
    {
      var ok := TryLock(id);
      if !ok {
        return None, true;
      }
      if env.contentLength > MAX_PACKAGE || env.contentLength < 0 || !env.bodyOk {
        // A negative length panics when the buffer is made; the server recovers and the lock is released.
        locked := false;
        Record(GiveUp(id));
        return None, false;
      }
      var r := Unseal(w, width, Threshold(running), KeyOf(running).value, req.blob, req.extSig);
      if !r.Opened? {
        locked := false;
        Record(GiveUp(id));
        return None, false;
      }
      Record(Vet(id, req, r.pkg));
      Record(Quiesce(id));
      return Some(r.pkg), false;
    }

    /** Put the kernel where the next reboot finds it. */
    method LoadImage(id: nat, pkg: Package, env: Outcomes) returns (ok: bool)
      requires Valid() && Serving(id, Saved(pkg))
      modifies this`locked, this`kernel, this`log
      ensures Valid() && old(log) <= log
      ensures Chain().boots == old(Chain()).boots
      ensures ok <==> pkg.kernel != [] && env.loadOk
      ensures ok ==> Serving(id, Staged(pkg))
      ensures !ok ==> !locked && id !in Chain().attempts
    {
      if pkg.kernel == [] {
        // Taking the address of the first byte panics; the server recovers and the lock is released.
        locked := false;
        Record(LoadFails(id, true));
        return false;
      }
      if !env.loadOk {
        locked := false;
        kernel := if env.keepsOldKernel then kernel else None;
        Record(LoadFails(id, env.keepsOldKernel));
        return false;
      }
      kernel := Some(pkg.kernel);
      Record(Load(id));
      return true;
    }

    /** Save the config, load the kernel. */
    method Stage(id: nat, pkg: Package, env: Outcomes) returns (ok: bool)
      requires Valid() && Serving(id, Quiesced(pkg))
      modifies this`locked, this`kernel, this`log, ocram
      ensures Valid() && old(log) <= log
      ensures Chain().boots == old(Chain()).boots
      ensures ok <==> Ocram.Fits(pkg.config) && env.devMemOk && env.mmapOk && pkg.kernel != [] && env.loadOk
      ensures ok ==> Serving(id, Staged(pkg))
      ensures !ok ==> !locked && id !in Chain().attempts
    {
      var saved := Ocram.WriteConfigToOcram(w.sha, ocram, pkg.config, env.devMemOk, env.mmapOk);
      if !saved {
        locked := false;
        Record(SaveFails(id));
        return false;
      }
      Record(Save(id));
      ok := LoadImage(id, pkg, env);
    }

    /** Reboot into the loaded kernel, which takes over the config; a failure ends the process. */
    method Restart(id: nat, pkg: Package, env: Outcomes)
      requires Valid() && Serving(id, Staged(pkg))
      modifies this, ocram
      ensures Valid() && old(log) <= log
      ensures !locked && Chain().attempts == map[]
      ensures env.rebootOk ==>
        && Chain().boots == old(Chain()).boots
             + [BootChain.Kexec(old(running), pkg, Some(pkg.kernel), Some(pkg.config), running)]
        && ocram[..] == Ocram.Wiped() && kernel == None
      ensures !env.rebootOk ==> running == Fallback(old(running)) && Chain().boots == old(Chain()).boots
    {
      RebootIsPaired(w, width, start, log, id, env.serial);
      locked := false;
      if !env.rebootOk {
        running := Fallback(running);
        Record(RebootFails(id));
        return;
      }
      var config := Ocram.LoadConfigFromOcram(w.sha, ocram);
      if config.None? {
        config := env.serial;
      }
      running := Booted(w, config);
      kernel := None;
      Record(Reboot(id, env.serial));
    }

    /** Save, load and reboot: whatever fails on the way ends the attempt, or the process. */
    method Install(id: nat, pkg: Package, env: Outcomes) returns (status: Status)
      requires Valid() && Serving(id, Quiesced(pkg))
      modifies this, ocram
      ensures Valid() && old(log) <= log && !locked
      ensures status == Failed || status == Died || status == Rebooted
      ensures status == Rebooted
         <==> && Ocram.Fits(pkg.config) && env.devMemOk && env.mmapOk
              && pkg.kernel != [] && env.loadOk && env.rebootOk
      ensures status == Rebooted ==>
        Chain().boots == old(Chain()).boots
          + [BootChain.Kexec(old(running), pkg, Some(pkg.kernel), Some(pkg.config), running)]
      ensures status != Rebooted ==> Chain().boots == old(Chain()).boots
      ensures status == Failed ==> running == old(running)
      ensures status == Died ==> running == Fallback(old(running)) && !env.rebootOk
    {
      var ok := Stage(id, pkg, env);
      if !ok {
        return Failed;
      }
      Restart(id, pkg, env);
      return if env.rebootOk then Rebooted else Died;
    }

    /**
     One request. It reboots exactly when the lock was free, the blob opens to a package under
     the handler's key and threshold and no system call fails, and then into the kernel and
     config of that package; on every other way out no boot happened, and the lock is free
     again unless someone else holds it.
     */
    method HandleKexec(id: nat, req: Request, env: Outcomes) returns (status: Status)
      requires Valid() && !running.Halted? && id !in Chain().attempts
      requires KeyOf(running).Some? ==> FitsInMemory(w, width, KeyOf(running).value, req.blob)
      modifies this, ocram
      ensures Valid() && old(log) <= log
      ensures status == Disabled <==> KeyOf(old(running)).None?
      ensures status == Busy <==> KeyOf(old(running)).Some? && old(locked)
      ensures status == Disabled || status == Busy ==> running == old(running) && locked == old(locked)
      ensures status != Disabled && status != Busy ==> !locked
      ensures status == Rebooted <==> !old(locked) && exists pkg ::
        && OpensFor(w, width, old(running), req, pkg)
        && 0 <= env.contentLength <= 128 * 1048576 && env.bodyOk
        && Ocram.Fits(pkg.config) && env.devMemOk && env.mmapOk
        && pkg.kernel != [] && env.loadOk && env.rebootOk
      ensures status == Rebooted ==> exists pkg ::
        && OpensFor(w, width, old(running), req, pkg)
        && Chain().boots == old(Chain()).boots
             + [BootChain.Kexec(old(running), pkg, Some(pkg.kernel), Some(pkg.config), running)]
      ensures status != Rebooted ==> Chain().boots == old(Chain()).boots
      ensures status == Failed ==> running == old(running)
      ensures status == Died ==> running == Fallback(old(running)) && !env.rebootOk
    {
      if KeyOf(running).None? {
        return Disabled;
      }
      var pkg, busy := Admit(id, req, env);
      if pkg.None? {
        return if busy then Busy else Failed;
      }
      OneRequestOnePackage(w, width, running, req, pkg.value);
      status := Install(id, pkg.value, env);
    }
  }
}
