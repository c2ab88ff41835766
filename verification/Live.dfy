/**
 Live pre-copy checkpoints of internal/checkpoint/live.go: a session runs passes while its workload executes,
 then freezes it for one final dump. A Service owns the single-checkpoint guard, which workloads really execute,
 and which are recorded as running; every external step may fail, and a signal may be delivered although its
 call reports an error and records nothing.
 */
module Live {
  import opened ImageChain

  type Workload = nat

  /**
   runtime.Pause and runtime.Resume: refused before the signal, delivered and recorded, or delivered while
   the record write failed, which the caller sees as an error.
   */
  datatype Signal = Refused | Delivered | Unrecorded

  const FILESYSTEM_ROOT: string := "filesystem-root"
  const MAX_PASSES: nat := 16

  datatype BeginFaults = BeginFaults(found: bool, alive: bool, engine: bool, id: bool, staging: bool, key: bool)

  datatype PassFaults = PassFaults(directory: bool, preDump: bool, capture: bool, chunks: seq<ChunkRef>, measured: bool, delta: nat)

  datatype FinalFaults = FinalFaults(
    pause: Signal, dump: bool, probe: bool, index: bool, snapshot: bool, early: Signal,
    capture: bool, images: seq<ChunkRef>, captureFiles: bool, files: seq<ChunkRef>,
    describe: bool, save: bool, saveIndex: bool, mirror: bool, late: Signal, mark: bool, deferred: Signal)

  /** Every chunk of the asset is under the pinned key version. */
  predicate Pinned(a: Asset, keyVersion: nat) {
    forall c <- a.chunks :: c.keyVersion == keyVersion
  }

  /** Nothing Finalize does goes wrong. */
  ghost predicate FinalFine(env: FinalFaults, running: bool, leave: bool, keyVersion: nat) {
    && (running ==> env.pause.Delivered?) && env.dump && env.probe && env.index
    && (running && leave ==> if env.snapshot then env.early.Delivered? else env.late.Delivered?)
    && env.capture && env.captureFiles && env.describe && env.save && env.saveIndex && env.mirror && env.mark
    && (forall c <- env.images :: c.keyVersion == keyVersion) && (forall c <- env.files :: c.keyVersion == keyVersion)
  }

  /** requireKeyVersion. */
  method RequireKeyVersion(a: Asset, keyVersion: nat) returns (ok: bool)
    ensures ok <==> Pinned(a, keyVersion)
  {
    for i := 0 to |a.chunks|
      invariant forall j | 0 <= j < i :: a.chunks[j].keyVersion == keyVersion
    {
      if a.chunks[i].keyVersion != keyVersion { return false; }
    }
    return true;
  }

  /** The assets of n completed passes: named 1..n in order, all under the pinned key. */
  ghost predicate PassChain(passes: seq<Asset>, keyVersion: nat) {
    forall i | 0 <= i < |passes| :: passes[i].name == PassName(i + 1) && Pinned(passes[i], keyVersion)
  }

  // ---------------------------------------------------------------- producer and consumer agree

  lemma ManifestTags(files: seq<ChunkRef>, images: seq<ChunkRef>, passes: seq<Asset>, keyVersion: nat)
    requires PassChain(passes, keyVersion) && |passes| <= MAX_PASSES
    ensures var tags := Tags([Asset(FILESYSTEM_ROOT, files), Asset(FINAL, images)] + passes);
            && |tags| == |passes| + 2 && tags[0] == Other && tags[1] == Other
            && forall i | 2 <= i < |tags| :: tags[i] == Pass(i - 1)
  {
    var assets := [Asset(FILESYSTEM_ROOT, files), Asset(FINAL, images)] + passes;
    assert TagOf(FILESYSTEM_ROOT) == Other by { assert FILESYSTEM_ROOT[0] != PASS_PREFIX[0]; }
    forall i | 2 <= i < |assets| ensures TagOf(assets[i].name) == Pass(i - 1) {
      assert assets[i] == passes[i - 2];
      PassNameParses(i - 1);
    }
  }

  /** Tags shaped like a finalized manifest are contiguous. */
  lemma ShapeIsContiguous(tags: seq<Tag>, n: nat)
    requires |tags| == n + 2 && tags[0] == Other && tags[1] == Other && forall i | 2 <= i < |tags| :: tags[i] == Pass(i - 1)
    ensures Contiguous(tags, n)
  {
    forall k ensures HasPass(tags, k) <==> 1 <= k <= n {
      if 1 <= k <= n { assert PassAt(tags, k + 1, k); }
    }
  }

  /** What Finalize builds from its passes, processImageAssets accepts and returns in pass order. */
  lemma FinalizedIsAccepted(files: seq<ChunkRef>, images: seq<ChunkRef>, passes: seq<Asset>, keyVersion: nat)
    requires PassChain(passes, keyVersion) && |passes| <= MAX_PASSES
    ensures var assets := [Asset(FILESYSTEM_ROOT, files), Asset(FINAL, images)] + passes;
            && IsFirst(assets, FINAL, Asset(FINAL, images)) && Contiguous(Tags(assets), |passes|)
            && InPassOrder(assets, Tags(assets), passes)
  {
    var assets := [Asset(FILESYSTEM_ROOT, files), Asset(FINAL, images)] + passes;
    var tags := Tags(assets);
    ManifestTags(files, images, passes, keyVersion);
    ShapeIsContiguous(tags, |passes|);
    assert assets[1] == Asset(FINAL, images) && assets[0].name != FINAL;
    forall k | 0 <= k < |passes| ensures IsPassNo(assets, tags, passes[k], k + 1) {
      assert PassAt(tags, k + 2, k + 1) && assets[k + 2] == passes[k];
    }
  }

  /** The consumer run on the producer's manifest: exactly the session's passes come back. */
  method RestoreReadsWhatLiveWrote(files: seq<ChunkRef>, images: seq<ChunkRef>, passes: seq<Asset>, keyVersion: nat) returns (r: Images)
    requires PassChain(passes, keyVersion) && |passes| <= MAX_PASSES
    ensures r == Accepted(Asset(FINAL, images), passes)
  {
    var assets := [Asset(FILESYSTEM_ROOT, files), Asset(FINAL, images)] + passes;
    FinalizedIsAccepted(files, images, passes, keyVersion);
    r := ProcessImageAssets(assets);
    assert HasFinal(assets) by { assert assets[1].name == FINAL; }
    PassOrderIsUnique(assets, r.passes, passes);
  }

  // ---------------------------------------------------------------- the service and its sessions

  class Service {
    var createInFlight: set<Workload>
    var executing: set<Workload>
    var recorded: set<Workload>
    // The open sessions.
    ghost var sessions: set<LiveSession>

    /** Every open session holds its workload's guard alone, its workload executes or not as it did at the start, and its chain is sound. */
    ghost predicate Valid()
      reads this, sessions
    {
      && (forall s <- sessions :: s.service == this && s.Open() && s.workload in createInFlight
                                  && (s.workload in executing <==> s.executedAtBegin))
      && (forall s, t | s in sessions && t in sessions :: s.workload == t.workload ==> s == t)
    }

    constructor (running: set<Workload>, statuses: set<Workload>)
      ensures Valid() && sessions == {} && createInFlight == {} && executing == running && recorded == statuses
    {
      createInFlight, executing, recorded, sessions := {}, running, statuses, {};
    }

    /** BeginLive takes the guard and gives it back on every path that does not open a session. */
    method BeginLive(w: Workload, passes: int, leaveRunning: bool, keyVersion: nat, env: BeginFaults) returns (session: LiveSession?)
      requires Valid()
      modifies this
      ensures Valid() && executing == old(executing) && recorded == old(recorded)
      ensures session == null <==> w in old(createInFlight) || !(env.found && env.alive && env.engine && env.id && env.staging && env.key)
      ensures session == null ==> createInFlight == old(createInFlight) && sessions == old(sessions)
      ensures session != null ==> && fresh(session) && sessions == old(sessions) + {session}
                                  && createInFlight == old(createInFlight) + {w}
                                  && session.workload == w && session.leaveRunning == leaveRunning && session.keyVersion == keyVersion
                                  && session.originallyRunning == (w in recorded) && session.executedAtBegin == (w in executing)
                                  && session.passLimit == (if passes < 1 then 1 else if passes > 16 then 16 else passes)
                                  && session.passAssets == [] && !session.passFailed && session.Valid()
    {
      if w in createInFlight { return null; }
      createInFlight := createInFlight + {w};
      if !env.found || !env.alive || !env.engine || !env.id || !env.staging || !env.key {
        createInFlight := createInFlight - {w};
        return null;
      }
      var limit := if passes < 1 then 1 else if passes > MAX_PASSES then MAX_PASSES else passes;
      session := new LiveSession(this, w, limit, leaveRunning, keyVersion, w in recorded, w in executing);
      sessions := sessions + {session};
    }
  }

  class LiveSession {
    const service: Service
    const workload: Workload
    const passLimit: nat
    const leaveRunning: bool
    const keyVersion: nat
    const originallyRunning: bool
    ghost const executedAtBegin: bool
    var passAssets: seq<Asset>
    var baseline: nat
    var passFailed: bool
    var frozen: bool
    var closed: bool
    // How often close has released the guard.
    ghost var releases: nat

    constructor (s: Service, w: Workload, limit: nat, leave: bool, key: nat, running: bool, ghost executes: bool)
      requires limit <= MAX_PASSES
      ensures service == s && workload == w && passLimit == limit && leaveRunning == leave && keyVersion == key
      ensures originallyRunning == running && executedAtBegin == executes && Open() && !passFailed && passAssets == []
    {
      service, workload, passLimit, leaveRunning, keyVersion, originallyRunning := s, w, limit, leave, key, running;
      executedAtBegin := executes;
      passAssets, baseline, passFailed, frozen, closed, releases := [], 0, false, false, false, 0;
    }

    /** Not closed, so never frozen between calls and the guard not yet released. */
    ghost predicate Open()
      reads this
    {
      !closed && !frozen && releases == 0 && |passAssets| <= passLimit <= MAX_PASSES && PassChain(passAssets, keyVersion)
    }

    ghost predicate Valid()
      reads this, service, service.sessions
    {
      service.Valid() && (this in service.sessions <==> !closed) && (closed ==> releases == 1)
    }

    /**
     One pre-dump pass. A failed one is terminal: the chain is incomplete and nothing more may run on it. scaled is
     the baseline times the convergence ratio, in whatever way that product is rounded to an integer.
     */
    method Pass(env: PassFaults, scaled: nat -> int) returns (ok: bool, more: bool)
      requires Valid()
      modifies this
      ensures Valid() && closed == old(closed)
      ensures ok ==> !old(passFailed) && !closed && originallyRunning
                     && passAssets == old(passAssets) + [Asset(PassName(|old(passAssets)| + 1), env.chunks)]
                     && !passFailed && (more ==> |passAssets| < passLimit)
      ensures !ok ==> passAssets == old(passAssets)
      ensures !ok ==> (passFailed <==> old(passFailed) || (!closed && originallyRunning && |passAssets| < passLimit))
      ensures ok <==> && !closed && !old(passFailed) && originallyRunning && |old(passAssets)| < passLimit
                      && env.directory && env.preDump && env.capture && (forall c <- env.chunks :: c.keyVersion == keyVersion)
      // Another pass is worth running unless the cap is reached or a measured delta has converged.
      ensures ok ==> (more <==> && |passAssets| < passLimit
                                && !(env.measured && |passAssets| > 1 && old(baseline) > 0 && env.delta <= scaled(old(baseline))))
      ensures baseline == if ok && |passAssets| == 1 && env.measured then env.delta else old(baseline)
    {
      ok, more := false, false;
      if closed || passFailed || !originallyRunning || |passAssets| >= passLimit { return; }
      var pass := |passAssets| + 1;
      var asset := Asset(PassName(pass), env.chunks);
      var pinned := RequireKeyVersion(asset, keyVersion);
      if !env.directory || !env.preDump || !env.capture || !pinned {
        passFailed := true;
        return;
      }
      passAssets := passAssets + [asset];
      more := |passAssets| < passLimit;
      if env.measured {
        if pass == 1 {
          baseline := env.delta;
        } else if baseline > 0 && env.delta <= scaled(baseline) {
          more := false;
        }
      }
      ok := true;
    }

    /** close: the staging tree and the guard go with the session. */
    method Close()
      requires closed && releases == 0
      modifies this`releases, service`createInFlight, service`sessions
      ensures releases == 1
      ensures service.createInFlight == old(service.createInFlight) - {workload}
      ensures service.sessions == old(service.sessions) - {this}
    {
      service.createInFlight := service.createInFlight - {workload};
      service.sessions := service.sessions - {this};
      releases := releases + 1;
    }

    /** runtime.Pause and runtime.Resume on the session's workload. */
    method Signalled(signal: Signal, run: bool) returns (ok: bool)
      modifies service`executing, service`recorded
      ensures ok <==> signal.Delivered?
      ensures service.recorded == if !ok then old(service.recorded)
                                  else if run then old(service.recorded) + {workload}
                                  else old(service.recorded) - {workload}
      ensures service.executing == if signal.Refused? then old(service.executing)
                                   else if run then old(service.executing) + {workload}
                                   else old(service.executing) - {workload}
    {
      if !signal.Refused? {
        service.executing := if run then service.executing + {workload} else service.executing - {workload};
      }
      if signal.Delivered? {
        service.recorded := if run then service.recorded + {workload} else service.recorded - {workload};
      }
      return signal.Delivered?;
    }

    /** Everything Finalize does after it has marked the session closed, up to its deferred clean-up. */
    method FinalSteps(env: FinalFaults) returns (ok: bool, assets: seq<Asset>)
      requires !frozen && |passAssets| <= MAX_PASSES && PassChain(passAssets, keyVersion)
      modifies this`frozen, service`executing, service`recorded
      ensures service.executing - {workload} == old(service.executing) - {workload}
      ensures service.recorded - {workload} == old(service.recorded) - {workload}
      ensures ok ==> (workload in service.recorded <==> originallyRunning && leaveRunning)
      ensures originallyRunning && env.pause.Unrecorded? ==> service.recorded == old(service.recorded)
      // The dump leaves the process stopped; nothing starts one again that is not recorded as running.
      ensures !originallyRunning ==>
                && !frozen
                && service.executing == if env.dump then old(service.executing) - {workload} else old(service.executing)
      ensures originallyRunning && env.pause.Delivered? && !env.dump ==> frozen
      ensures originallyRunning && frozen ==> workload !in service.recorded
      // Frozen is what the deferred clean-up goes by: it is right except after an unrecorded pause.
      ensures originallyRunning ==> (frozen ==> env.pause.Delivered?)
      ensures originallyRunning && !frozen ==>
                (workload in service.executing <==>
                 env.pause.Delivered? || (env.pause.Refused? && workload in old(service.executing)))
      ensures originallyRunning && ok ==> (frozen <==> !leaveRunning) && (workload in service.executing <==> leaveRunning)
      ensures ok <==> FinalFine(env, originallyRunning, leaveRunning, keyVersion)
      ensures ok || assets != [] ==> && assets == [Asset(FILESYSTEM_ROOT, env.files), Asset(FINAL, env.images)] + passAssets
                                     && forall a <- assets :: Pinned(a, keyVersion)
    {
      ok, assets := false, [];
      if originallyRunning {
        var paused := Signalled(env.pause, false);
        if !paused { return; }
        frozen := true;
      }
      if !env.dump { return; }
      service.executing := service.executing - {workload};
      if !env.probe || !env.index { return; }
      if env.snapshot && originallyRunning && leaveRunning {
        var resumed := Signalled(env.early, true);
        if !resumed { return; }
        frozen := false;
      }
      var image, files := Asset(FINAL, env.images), Asset(FILESYSTEM_ROOT, env.files);
      var imagePinned := RequireKeyVersion(image, keyVersion);
      var filesPinned := RequireKeyVersion(files, keyVersion);
      if !env.capture || !imagePinned || !env.captureFiles || !filesPinned { return; }
      if !env.describe || !env.save { return; }
      assets := [files, image] + passAssets;
      if !env.saveIndex || !env.mirror { return; }
      if originallyRunning && leaveRunning && frozen {
        var resumed := Signalled(env.late, true);
        if !resumed { return; }
        frozen := false;
      }
      if !env.mark { return; }
      service.recorded := if originallyRunning && leaveRunning then service.recorded + {workload} else service.recorded - {workload};
      ok := true;
    }

    /**
     Finalize. Refused on a closed session or a broken chain; otherwise it closes the session and releases
     the guard once, whatever happened. When it fails and the deferred resume is delivered, a workload recorded
     as running executes if and only if the pause was delivered and recorded, or refused while it executed: one
     that executed before is left stopped only by a pause that was delivered without being recorded. One that is not
     recorded as running is never resumed: if it did execute, it is left stopped exactly by a dump that worked,
     whether Finalize succeeds or not. After a success a workload recorded as running is left frozen only when
     Finalize was not asked to leave it running.
     */
    method Finalize(env: FinalFaults) returns (ok: bool, assets: seq<Asset>)
      requires Valid()
      modifies this, service
      ensures Valid() && passAssets == old(passAssets)
      ensures old(closed || passFailed) ==> && !ok && closed == old(closed) && service.executing == old(service.executing)
                                            && service.createInFlight == old(service.createInFlight) && releases == old(releases)
      ensures !old(closed || passFailed) ==> && closed && releases == 1
                                             && service.createInFlight == old(service.createInFlight) - {workload}
                                             && service.sessions == old(service.sessions) - {this}
      ensures service.executing - {workload} == old(service.executing) - {workload}
      ensures !old(closed || passFailed) && !originallyRunning ==>
                service.executing == if env.dump then old(service.executing) - {workload} else old(service.executing)
      ensures !old(closed || passFailed) && !ok && !env.deferred.Refused? ==>
                (workload in service.executing <==>
                 if originallyRunning then env.pause.Delivered? || (env.pause.Refused? && executedAtBegin)
                 else executedAtBegin && !env.dump)
      ensures !old(closed || passFailed) && originallyRunning && !ok && !env.deferred.Refused? && executedAtBegin ==>
                (workload in service.executing <==> !env.pause.Unrecorded?)
      ensures service.recorded - {workload} == old(service.recorded) - {workload}
      ensures originallyRunning && env.pause.Unrecorded? ==> service.recorded == old(service.recorded)
      ensures ok ==> (workload in service.recorded <==> originallyRunning && leaveRunning)
      ensures !old(closed || passFailed) && originallyRunning && env.pause.Delivered? && !env.dump && env.deferred.Unrecorded? ==>
                workload in service.executing && workload !in service.recorded
      ensures originallyRunning && ok ==> (workload in service.executing <==> leaveRunning)
      ensures ok <==> !old(closed || passFailed) && FinalFine(env, originallyRunning, leaveRunning, keyVersion)
      ensures ok ==> && |passAssets| <= MAX_PASSES && PassChain(passAssets, keyVersion)
                     && assets == [Asset(FILESYSTEM_ROOT, env.files), Asset(FINAL, env.images)] + passAssets
                     && forall a <- assets :: Pinned(a, keyVersion)
    {
      if closed || passFailed { return false, []; }
      closed := true;
      ok, assets := FinalSteps(env);
      if !ok && frozen && originallyRunning {
        var _ := Signalled(env.deferred, true);
      }
      Close();
      forall s | s in service.sessions ensures s.workload in service.executing <==> s.executedAtBegin {
        assert s in old(service.sessions) && s.workload != workload;
        assert s.workload in old(service.executing) <==> s.workload in old(service.executing) - {workload};
        assert s.workload in service.executing <==> s.workload in service.executing - {workload};
      }
    }

    /**
     Abort closes an open session and is a no-op on a closed one; the workload runs as it did. The source also
     thaws a frozen workload here, but no open session is ever frozen between calls.
     */
    method Abort()
      requires Valid()
      modifies this, service
      ensures Valid() && closed && releases == 1 && service.executing == old(service.executing)
      ensures old(closed) ==> service.createInFlight == old(service.createInFlight) && service.sessions == old(service.sessions)
      ensures !old(closed) ==> && service.createInFlight == old(service.createInFlight) - {workload}
                               && service.sessions == old(service.sessions) - {this}
                               && (workload in service.executing <==> executedAtBegin)
    {
      if closed { return; }
      closed := true;
      Close();
    }
  }

  /**
   The second way to stay stopped, from a fresh start: a failed Finalize resumes the workload without recording it, and
   the next one, asked to leave it running, dumps it and leaves it stopped even when it succeeds.
   */
  method StaleStatusStops(w: Workload, keyVersion: nat, first: FinalFaults, second: FinalFaults)
    returns (service: Service, between: set<Workload>, ok: bool)
    requires first.pause.Delivered? && !first.dump && first.deferred.Unrecorded? && second.dump
    ensures between == {w} && w !in service.executing
    ensures ok <==> FinalFine(second, false, true, keyVersion)
  {
    service := new Service({w}, {w});
    var fine := BeginFaults(true, true, true, true, true, true);
    var session := service.BeginLive(w, 1, true, keyVersion, fine);
    assert session.executedAtBegin && session.originallyRunning;
    var failed, _ := session.Finalize(first);
    between := service.executing;
    assert between - {w} == {} && service.createInFlight == {};
    var again := service.BeginLive(w, 1, true, keyVersion, fine);
    var done, assets := again.Finalize(second);
    ok := done;
  }
}
