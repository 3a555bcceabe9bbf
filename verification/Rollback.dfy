/**
 When a device can come to run an older version. The normal handler never goes back; the
 emergency handler, which starts when the normal one dies, compares with version 1 only.
 */
module Rollback {
  import opened Common
  import opened Layout
  import opened Kexec
  import opened BootChain
  import Base64
  import Ocram

  // ----- the emergency handler can roll back -----

  ghost predicate Idle(d: Device) {
    d.attempts == map[] && !d.locked && KeyOf(d.running).Some?
  }

  lemma AttemptQuiesces(w: World, width: IntWidth, d0: Device, es: seq<Event>, req: Request, pkg: Package)
      returns (es': seq<Event>)
    requires Run(w, width, d0, es) && Idle(Final(w, width, d0, es))
    requires OpensFor(w, width, Final(w, width, d0, es).running, req, pkg)
    ensures es <= es' && Run(w, width, d0, es')
    ensures
      var d, d' := Final(w, width, d0, es), Final(w, width, d0, es');
      d'.attempts == map[0 := Quiesced(pkg)] && d'.running == d.running && d'.boots == d.boots
  {
    es' := Extend(w, width, d0, es, Arrive(0));
    es' := Extend(w, width, d0, es', Lock(0));
    es' := Extend(w, width, d0, es', Vet(0, req, pkg));
    es' := Extend(w, width, d0, es', Quiesce(0));
  }

  lemma AttemptReboots(w: World, width: IntWidth, d0: Device, es: seq<Event>, pkg: Package) returns (es': seq<Event>)
    requires JsonHasNoZero(w) && Run(w, width, d0, es)
    requires Final(w, width, d0, es).attempts == map[0 := Quiesced(pkg)]
    requires pkg.kernel != [] && Ocram.Fits(pkg.config)
    ensures es <= es' && Run(w, width, d0, es')
    ensures
      var d, d' := Final(w, width, d0, es), Final(w, width, d0, es');
      && w.version(pkg.config).Some?
      && d'.running == Booted(w, Some(pkg.config))
      && d'.boots
           == d.boots + [BootChain.Kexec(d.running, pkg, Some(pkg.kernel), Some(pkg.config), d'.running)]
  {
    var d := Final(w, width, d0, es);
    assert VettedFor(w, width, d.running, pkg) by {
      RunKeepsInv(w, width, d0, es);
      assert 0 in d.attempts && StageOk(w, width, d, d.attempts[0]);
    }
    VettedHasNoZero(w, width, d.running, pkg);
    es' := Extend(w, width, d0, es, Save(0));
    es' := Extend(w, width, d0, es', Load(0));
    RebootIsPaired(w, width, d0, es', 0, None);
    es' := Extend(w, width, d0, es', Reboot(0, None));
  }

  /** The first boot after `es` is a kexec into this package. */
  ghost predicate NextBootIs(w: World, width: IntWidth, d0: Device, es: seq<Event>, more: seq<Event>, pkg: Package) {
    && Run(w, width, d0, es) && Run(w, width, d0, es + more)
    && var n, boots := |Final(w, width, d0, es).boots|, Final(w, width, d0, es + more).boots;
       n < |boots| && boots[n].Kexec? && boots[n].pkg == pkg
  }

  /**
   The emergency handler compares with version 1, so after a crash it boots any authentic
   package of version 1 or more under the same key, however far below the version that was
   running.
   */
  lemma EmergencyRollsBack(w: World, width: IntWidth, d0: Device, es: seq<Event>, req: Request, pkg: Package)
      returns (more: seq<Event>)
    requires JsonHasNoZero(w) && Run(w, width, d0, es)
    requires
      var r := Final(w, width, d0, es).running;
      r.Normal? && r.key.Some? && Opens(w, width, 1, r.key.value, req.blob, req.extSig, pkg)
    requires pkg.kernel != [] && Ocram.Fits(pkg.config)
    ensures NextBootIs(w, width, d0, es, more, pkg)
    ensures Final(w, width, d0, es + more).running == Booted(w, Some(pkg.config))
  {
    var es' := Extend(w, width, d0, es, Crash);
    es' := AttemptQuiesces(w, width, d0, es', req, pkg);
    es' := AttemptReboots(w, width, d0, es', pkg);
    more := es'[|es|..];
    assert es + more == es';
  }

  // ----- and nothing else can -----

  lemma {:induction false} BootsGrow(w: World, width: IntWidth, d0: Device, es: seq<Event>, more: seq<Event>)
    requires Run(w, width, d0, es) && Run(w, width, d0, es + more)
    ensures Final(w, width, d0, es).boots <= Final(w, width, d0, es + more).boots
  {
    if more == [] {
      assert es + more == es;
    } else {
      assert (es + more)[..|es + more| - 1] == es + more[..|more| - 1];
      BootsGrow(w, width, d0, es, more[..|more| - 1]);
      BootAdds(w, width, Final(w, width, d0, es + more[..|more| - 1]), more[|more| - 1]);
    }
  }

  /** The next boot comes through the handler that is running or through the one it falls back to. */
  lemma NextBootVetted(w: World, width: IntWidth, d0: Device, es: seq<Event>, more: seq<Event>, pkg: Package)
    requires JsonHasNoZero(w) && NextBootIs(w, width, d0, es, more, pkg) && Final(w, width, d0, es).running.Normal?
    ensures pkg.kernel != [] && Ocram.Fits(pkg.config)
    ensures
      var r := Final(w, width, d0, es).running;
      VettedFor(w, width, r, pkg) || VettedFor(w, width, Fallback(r), pkg)
    ensures
      var d, d' := Final(w, width, d0, es), Final(w, width, d0, es + more);
      |d.boots| < |d'.boots| && d'.boots[|d.boots|].to == Booted(w, Some(pkg.config))
  {
    var d, d' := Final(w, width, d0, es), Final(w, width, d0, es + more);
    RunKeepsInv(w, width, d0, es);
    RunKeepsInv(w, width, d0, es + more);
    BootsGrow(w, width, d0, es, more);
    var n := |d.boots|;
    assert BootOk(w, width, d'.boots[n]);
    assert Decays(d'.boots[n - 1].to, d'.boots[n].from);
    assert d'.boots[n - 1] == d.boots[n - 1] && d.boots[n - 1].to == d.running;
  }

  /** The version of the package is below the running one. */
  predicate Older(w: World, r: Running, pkg: Package) {
    r.Normal? && w.version(pkg.config).Some? && w.version(pkg.config).value < r.version
  }

  /** What is needed to go back to this package: it opens under the running key at version 1, and can be staged. */
  ghost predicate RollbackPackage(w: World, width: IntWidth, r: Running, req: Request, pkg: Package) {
    && Older(w, r, pkg)
    && r.key.Some? && Opens(w, width, 1, r.key.value, req.blob, req.extSig, pkg)
    && pkg.kernel != [] && Ocram.Fits(pkg.config)
  }

  lemma OlderNeedsEmergency(w: World, width: IntWidth, d0: Device, es: seq<Event>, more: seq<Event>, pkg: Package)
      returns (req: Request)
    requires JsonHasNoZero(w) && NextBootIs(w, width, d0, es, more, pkg)
    requires Older(w, Final(w, width, d0, es).running, pkg)
    ensures RollbackPackage(w, width, Final(w, width, d0, es).running, req, pkg)
  {
    var r := Final(w, width, d0, es).running;
    NextBootVetted(w, width, d0, es, more, pkg);
    if VettedFor(w, width, r, pkg) {
      VettedHasNoZero(w, width, r, pkg);
    }
    req :| OpensFor(w, width, Fallback(r), req, pkg);
  }

  /**
   The exact condition for going back to a given older package: from every reachable state of
   the normal handler the next boot can be a kexec into it if and only if some request opens to
   it under the running key at version 1, its kernel is not empty and its config fits.
   */
  lemma OlderBootIff(w: World, width: IntWidth, d0: Device, es: seq<Event>, pkg: Package)
    requires JsonHasNoZero(w) && Run(w, width, d0, es) && Older(w, Final(w, width, d0, es).running, pkg)
    ensures (exists more :: NextBootIs(w, width, d0, es, more, pkg))
       <==> exists req :: RollbackPackage(w, width, Final(w, width, d0, es).running, req, pkg)
  {
    if more :| NextBootIs(w, width, d0, es, more, pkg) {
      var req := OlderNeedsEmergency(w, width, d0, es, more, pkg);
    }
    if req :| RollbackPackage(w, width, Final(w, width, d0, es).running, req, pkg) {
      var more := EmergencyRollsBack(w, width, d0, es, req, pkg);
    }
  }

  /** The same for any older package: when the next boot can be a kexec into one. */
  lemma SomeOlderBootIff(w: World, width: IntWidth, d0: Device, es: seq<Event>)
    requires JsonHasNoZero(w) && Run(w, width, d0, es)
    ensures (exists more, pkg ::
               NextBootIs(w, width, d0, es, more, pkg) && Older(w, Final(w, width, d0, es).running, pkg))
       <==> exists req, pkg :: RollbackPackage(w, width, Final(w, width, d0, es).running, req, pkg)
  {
    var r := Final(w, width, d0, es).running;
    if more, pkg :| NextBootIs(w, width, d0, es, more, pkg) && Older(w, r, pkg) {
      OlderBootIff(w, width, d0, es, pkg);
    }
    if req, pkg :| RollbackPackage(w, width, r, req, pkg) {
      OlderBootIff(w, width, d0, es, pkg);
    }
  }

  /** The first boot after `es` is a kexec that runs an older version than the one running now. */
  ghost predicate NextRunsOlder(w: World, width: IntWidth, d0: Device, es: seq<Event>, more: seq<Event>) {
    && Run(w, width, d0, es) && Run(w, width, d0, es + more) && Final(w, width, d0, es).running.Normal?
    && var d, boots := Final(w, width, d0, es), Final(w, width, d0, es + more).boots;
       && |d.boots| < |boots| && boots[|d.boots|].Kexec?
       && boots[|d.boots|].to.Normal? && boots[|d.boots|].to.version < d.running.version
  }

  /**
   When the version can fall at all: from every reachable state of the normal handler the next
   boot can run an older version if and only if some request opens, under the running key and
   at version 1, to an older package that can be staged and whose config is valid.
   */
  lemma RollbackIff(w: World, width: IntWidth, d0: Device, es: seq<Event>)
    requires JsonHasNoZero(w) && Run(w, width, d0, es) && Final(w, width, d0, es).running.Normal?
    ensures (exists more :: NextRunsOlder(w, width, d0, es, more))
       <==> exists req, pkg ::
              RollbackPackage(w, width, Final(w, width, d0, es).running, req, pkg) && w.initOk(pkg.config)
  {
    var d := Final(w, width, d0, es);
    if more :| NextRunsOlder(w, width, d0, es, more) {
      var pkg := Final(w, width, d0, es + more).boots[|d.boots|].pkg;
      NextBootVetted(w, width, d0, es, more, pkg);
      var req := OlderNeedsEmergency(w, width, d0, es, more, pkg);
    }
    if req, pkg :| RollbackPackage(w, width, d.running, req, pkg) && w.initOk(pkg.config) {
      var more := EmergencyRollsBack(w, width, d0, es, req, pkg);
      NextBootVetted(w, width, d0, es, more, pkg);
      assert NextRunsOlder(w, width, d0, es, more);
    }
  }

  // ----- an example -----

  /**
   A world in which the text [9] is a config of version 9 and every other zero-free text one of
   version 5, all with this key, and in which every bundle verifies.
   */
  ghost function SampleWorld(key: Bytes, digest: Digest): World {
    World((b: Bytes) => digest,
          (k: Bytes, nonce: Bytes, text: Bytes) => text,
          (k: Bytes, nonce: Bytes, text: Bytes) => Some(text),
          (sig: Bytes) => None,
          (extSig: string, blob: Bytes) => true,
          (text: Bytes) => SampleVersion(text),
          (text: Bytes) => true,
          (text: Bytes) => Base64.Encode(key),
          (text: Bytes) => None)
  }

  function SampleVersion(text: Bytes): Option<int> {
    if 0 in text then None else if text == [9] then Some(9) else Some(5)
  }

  lemma SampleConfigs(key: Bytes, digest: Digest)
    requires |key| == KEY_SIZE
    ensures
      var w := SampleWorld(key, digest);
      && JsonHasNoZero(w) && OpensWhatItSeals(w)
      && Booted(w, Some([9])) == Normal(9, Some(key)) && Booted(w, Some([7])) == Normal(5, Some(key))
  {
    SampleKey(key, digest, [9]);
    SampleKey(key, digest, [7]);
  }

  lemma SampleKey(key: Bytes, digest: Digest, text: Bytes)
    requires |key| == KEY_SIZE && 0 !in text
    ensures Booted(SampleWorld(key, digest), Some(text)) == Normal(SampleVersion(text).value, Some(key))
  {
    Base64.RoundTrip(key);
  }

  lemma SampleOpens(key: Bytes, digest: Digest, width: IntWidth, nonce: Bytes) returns (req: Request)
    requires |nonce| == NONCE_SIZE
    ensures Opens(SampleWorld(key, digest), width, 1, key, req.blob, req.extSig, Package([1], [7]))
  {
    var w := SampleWorld(key, digest);
    req := Request(SealedBlob(w, key, nonce, [], TwoFields([1], [7])), "bundle");
    BundledPackageOpens(w, width, 1, key, nonce, [], [1], [7], "bundle");
  }

  /**
   A rollback spelled out, under any key: a device booted with a config of version 9 crashes,
   and the emergency handler boots version 5.
   */
  lemma RollbackExample(key: Bytes, digest: Digest, width: IntWidth, nonce: Bytes, ocram: Ocram.Region)
      returns (d0: Device, es: seq<Event>)
    requires |key| == KEY_SIZE && |nonce| == NONCE_SIZE
    ensures
      var w := SampleWorld(key, digest);
      && JsonHasNoZero(w) && OpensWhatItSeals(w)
      && d0.running == Booted(w, Some([9])) == Normal(9, Some(key)) && d0.boots == [Cold(Some([9]), d0.running)]
      && Run(w, width, d0, es)
      && Final(w, width, d0, es).running == Booted(w, Some([7])) == Normal(5, Some(key))
  {
    var w := SampleWorld(key, digest);
    SampleConfigs(key, digest);
    d0 := Device(Normal(9, Some(key)), false, map[], ocram, None, [Cold(Some([9]), Normal(9, Some(key)))]);
    var req := SampleOpens(key, digest, width, nonce);
    es := EmergencyRollsBack(w, width, d0, [], req, Package([1], [7]));
    assert [] + es == es;
  }
}
