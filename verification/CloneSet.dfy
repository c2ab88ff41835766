/**
 Clone sets of internal/checkpoint/clone.go: an all-or-nothing set of members built by a bounded pool of
 workers, rolled back on any failure, and settled by Recover after a crash. ClonePool is the pool in every
 interleaving; CloneSet is the cloner that commits, rolls back and recovers.
 */
module ClonePlan {
  type Root = nat
  type WorkloadId = nat

  datatype MemberState = Pending | Materializing | Running | Undone

  datatype Member = Member(id: WorkloadId, root: Root, state: MemberState, created: bool)

  datatype SetState = Preparing | Cloning | Committed | RollingBack | RolledBack

  datatype Record = Record(state: SetState, count: nat, sourceRoot: Root, members: seq<Member>)

  /** cloneSetFullyRunning. */
  predicate FullyRunning(r: Record) {
    && r.count >= 1 && |r.members| == r.count
    && forall m <- r.members :: m.state.Running?
  }

  /** The roots a rollback removes: every member root except the source's own. */
  function MemberRoots(r: Record): set<Root> {
    set m | m in r.members && m.root != r.sourceRoot :: m.root
  }

  /** Every root and identity the plan names, before any of it exists. */
  function PlannedRoots(r: Record): set<Root> {
    set m | m in r.members :: m.root
  }

  function PlannedIds(r: Record): set<WorkloadId> {
    set m | m in r.members :: m.id
  }

  function CreatedIds(r: Record): set<WorkloadId> {
    set m | m in r.members && m.created :: m.id
  }
}

/** The worker pool: each worker takes the next member and drives it through cloneMember's stages. */
module ClonePool {
  import opened ClonePlan

  datatype Stage = Entered | Materialized | Registered(created: bool) | Recorded | Restored

  datatype Worker = Ready | Busy(member: nat, stage: Stage) | Gone

  /**
   One scheduling step of worker k. ok is whether the stage worked (a cancelled context is a failed stage),
   putOk whether the record write it makes reached the disk, leaves whether a failed copy left files.
   */
  datatype Event = Event(k: nat, ok: bool, putOk: bool, leaves: bool)

  /** record is the in-memory one the workers share; persisted lags it by every write that failed. */
  datatype Pool = Pool(
    record: Record, persisted: Record, roots: set<Root>, registry: set<WorkloadId>,
    next: nat, workers: seq<Worker>, failures: nat)

  function SetMember(p: Pool, i: nat, m: Member, putOk: bool): Pool
    requires i < |p.record.members|
  {
    var r := p.record.(members := p.record.members[i := m]);
    p.(record := r, persisted := if putOk then r else p.persisted)
  }

  function At(p: Pool, k: nat, w: Worker): Pool
    requires k < |p.workers|
  {
    p.(workers := p.workers[k := w])
  }

  function Fail(p: Pool, k: nat): Pool
    requires k < |p.workers|
  {
    At(p, k, Gone).(failures := p.failures + 1)
  }

  function Take(p: Pool, k: nat, putOk: bool): Pool
    requires k < |p.workers|
  {
    if p.next >= |p.record.members| then At(p, k, Gone)
    else
      var m := p.record.members[p.next];
      At(SetMember(p, p.next, m.(state := Materializing), putOk), k, Busy(p.next, Entered)).(next := p.next + 1)
  }

  function Work(p: Pool, e: Event, i: nat, stage: Stage): Pool
    requires e.k < |p.workers| && i < |p.record.members|
  {
    var m := p.record.members[i];
    match stage
    case Entered =>
      if m.root in p.roots then Fail(p, e.k)
      else if !e.ok then Fail(p, e.k).(roots := if e.leaves then p.roots + {m.root} else p.roots)
      else At(p, e.k, Busy(i, Materialized)).(roots := p.roots + {m.root})
    case Materialized =>
      if !e.ok then Fail(p, e.k)
      else At(p, e.k, Busy(i, Registered(m.id !in p.registry))).(registry := p.registry + {m.id})
    case Registered(created) => At(SetMember(p, i, m.(created := created), e.putOk), e.k, Busy(i, Recorded))
    case Recorded => if !e.ok then Fail(p, e.k) else At(p, e.k, Busy(i, Restored))
    case Restored => At(SetMember(p, i, m.(state := Running), e.putOk), e.k, Ready)
  }

  function Step(p: Pool, e: Event): Pool {
    if e.k >= |p.workers| then p
    else match p.workers[e.k]
      case Ready => Take(p, e.k, e.putOk)
      case Busy(i, stage) => if i < |p.record.members| then Work(p, e, i, stage) else p
      case Gone => p
  }

  function Exec(p: Pool, run: seq<Event>): Pool {
    if run == [] then p else Step(Exec(p, run[..|run| - 1]), run[|run| - 1])
  }

  /** The pool as Clone starts it: CLONING is persisted, no member has been touched, between 1 and count workers. */
  ghost predicate Fresh(p: Pool) {
    && p.record == p.persisted && p.record.state == Cloning
    && p.record.count >= 1 && |p.record.members| == p.record.count
    && (forall m <- p.record.members :: m.state.Pending? && !m.created)
    && p.next == 0 && p.failures == 0
    && 1 <= |p.workers| && (forall w <- p.workers :: w.Ready?)
  }

  /** wait.Wait returned: no worker is left. */
  ghost predicate Finished(p: Pool) {
    forall w <- p.workers :: w.Gone?
  }

  ghost predicate OnIt(p: Pool, i: nat) {
    exists k | 0 <= k < |p.workers| :: p.workers[k].Busy? && p.workers[k].member == i
  }

  /** Until something fails, every member taken is running or in the hands of one worker. */
  ghost predicate Covered(p: Pool) {
    && p.next <= |p.record.members| && |p.workers| >= 1
    && (forall k | 0 <= k < |p.workers| :: p.workers[k].Busy? ==> p.workers[k].member < p.next)
    && (forall j, k | 0 <= j < k < |p.workers| && p.workers[j].Busy? && p.workers[k].Busy? ::
          p.workers[j].member != p.workers[k].member)
    && (p.failures == 0 ==> forall i | 0 <= i < p.next :: p.record.members[i].state.Running? || OnIt(p, i))
    && (p.failures == 0 && (exists k | 0 <= k < |p.workers| :: p.workers[k].Gone?) ==> p.next == |p.record.members|)
  }

  lemma CoveredTake(p: Pool, k: nat, putOk: bool)
    requires Covered(p) && k < |p.workers| && p.workers[k].Ready?
    ensures Covered(Take(p, k, putOk))
  {
    var q := Take(p, k, putOk);
    forall i | 0 <= i < q.next && q.failures == 0 ensures q.record.members[i].state.Running? || OnIt(q, i) {
      if p.next < |p.record.members| && i == p.next {
        assert q.workers[k].member == i;
      } else if !p.record.members[i].state.Running? {
        var j :| 0 <= j < |p.workers| && p.workers[j].Busy? && p.workers[j].member == i;
        assert q.workers[j] == p.workers[j];
      }
    }
  }

  lemma CoveredWork(p: Pool, e: Event, i: nat, stage: Stage)
    requires Covered(p) && e.k < |p.workers| && p.workers[e.k] == Busy(i, stage)
    ensures Covered(Work(p, e, i, stage))
  {
    var q := Work(p, e, i, stage);
    forall x | 0 <= x < q.next && q.failures == 0 ensures q.record.members[x].state.Running? || OnIt(q, x) {
      if x == i {
        assert q.workers[e.k] == Ready || q.workers[e.k].member == i;
      } else if !p.record.members[x].state.Running? {
        var j :| 0 <= j < |p.workers| && p.workers[j].Busy? && p.workers[j].member == x;
        assert q.workers[j] == p.workers[j];
      }
    }
  }

  lemma {:induction false} CoveredAlways(p: Pool, run: seq<Event>)
    requires Fresh(p)
    ensures Covered(Exec(p, run))
    ensures |Exec(p, run).record.members| == p.record.count
  {
    if run == [] {
      forall k | 0 <= k < |p.workers| ensures p.workers[k].Ready? { assert p.workers[k] in p.workers; }
    } else {
      var n := |run| - 1;
      CoveredAlways(p, run[..n]);
      var (q, e) := (Exec(p, run[..n]), run[n]);
      if e.k < |q.workers| {
        match q.workers[e.k] {
          case Ready => CoveredTake(q, e.k, e.putOk);
          case Busy(i, stage) => CoveredWork(q, e, i, stage);
          case Gone =>
        }
      }
    }
  }

  // ---------------------------------------------------------------- what RUNNING took

  /** Event j found its worker at this stage of member i. */
  ghost predicate Met(p: Pool, run: seq<Event>, j: nat, i: nat, stage: Stage) {
    && j < |run| && i < |p.record.members|
    && run[j].k < |Exec(p, run[..j]).workers| && Exec(p, run[..j]).workers[run[j].k] == Busy(i, stage)
  }

  /** That stage worked; for the copy this includes that nothing was at the member's root yet. */
  ghost predicate Worked(p: Pool, run: seq<Event>, j: nat, i: nat, stage: Stage) {
    && Met(p, run, j, i, stage) && run[j].ok
    && (stage.Entered? ==> p.record.members[i].root !in Exec(p, run[..j]).roots)
  }

  ghost predicate Passed(p: Pool, run: seq<Event>, i: nat, stage: Stage) {
    exists j :: Worked(p, run, j, i, stage)
  }

  /** All that lies behind a member at this stage worked: the copy, the registration, the restore of its process. */
  ghost predicate Earned(p: Pool, run: seq<Event>, i: nat, stage: Stage) {
    && (!stage.Entered? ==> Passed(p, run, i, Entered))
    && (stage.Registered? || stage.Recorded? || stage.Restored? ==> Passed(p, run, i, Materialized))
    && (stage.Restored? ==> Passed(p, run, i, Recorded))
  }

  ghost predicate RunningEarned(p: Pool, run: seq<Event>, r: Record) {
    forall i | 0 <= i < |r.members| && r.members[i].state.Running? :: Earned(p, run, i, Restored)
  }

  ghost predicate AllEarned(p: Pool, run: seq<Event>) {
    var q := Exec(p, run);
    && (forall k | 0 <= k < |q.workers| && q.workers[k].Busy? :: Earned(p, run, q.workers[k].member, q.workers[k].stage))
    && RunningEarned(p, run, q.record) && RunningEarned(p, run, q.persisted)
  }

  lemma EarnedStays(p: Pool, run: seq<Event>, e: Event, i: nat, stage: Stage)
    requires Earned(p, run, i, stage)
    ensures Earned(p, run + [e], i, stage)
  {
    forall j: nat, s: Stage | Worked(p, run, j, i, s) ensures Worked(p, run + [e], j, i, s) {
      assert (run + [e])[..j] == run[..j];
    }
    forall s: Stage | Passed(p, run, i, s) ensures Passed(p, run + [e], i, s) {
      var j :| Worked(p, run, j, i, s);
      assert Worked(p, run + [e], j, i, s);
    }
  }

  /** The event that just worked is the one the next stage asks for. */
  lemma JustWorked(p: Pool, run: seq<Event>, e: Event, i: nat, stage: Stage)
    requires i < |p.record.members| && e.k < |Exec(p, run).workers| && Exec(p, run).workers[e.k] == Busy(i, stage) && e.ok
    requires stage.Entered? ==> p.record.members[i].root !in Exec(p, run).roots
    ensures Passed(p, run + [e], i, stage)
  {
    assert (run + [e])[..|run|] == run;
    assert Worked(p, run + [e], |run|, i, stage);
  }

  /** What one step makes of a worker: it keeps its member and its evidence, or adds to it, or takes up a new one. */
  lemma EarnedWorker(p: Pool, run: seq<Event>, e: Event)
    requires Fresh(p) && AllEarned(p, run) && e.k < |Exec(p, run).workers|
    requires var q := Step(Exec(p, run), e);
             |q.workers| == |Exec(p, run).workers| && q.workers[e.k].Busy?
    ensures var w := Step(Exec(p, run), e).workers[e.k];
            Earned(p, run + [e], w.member, w.stage)
  {
    PlanKept(p, run);
    var q := Exec(p, run);
    if q.workers[e.k].Busy? {
      var (i, stage) := (q.workers[e.k].member, q.workers[e.k].stage);
      EarnedStays(p, run, e, i, stage);
      if i < |q.record.members| && Step(q, e).workers[e.k] != q.workers[e.k]
         && (stage.Entered? || stage.Materialized? || stage.Recorded?)
      {
        JustWorked(p, run, e, i, stage);
      }
    }
  }

  /** A member becomes RUNNING only through the worker that has restored it, and the disk follows memory or stays. */
  lemma RunningStep(q: Pool, e: Event, i: nat)
    requires i < |q.record.members|
    ensures |Step(q, e).record.members| == |q.record.members|
    ensures Step(q, e).record.members[i].state.Running? ==>
              q.record.members[i].state.Running? || (e.k < |q.workers| && q.workers[e.k] == Busy(i, Restored))
    ensures Step(q, e).persisted == q.persisted || Step(q, e).persisted == Step(q, e).record
  {
  }

  lemma SizeKept(q: Pool, e: Event)
    ensures |Step(q, e).record.members| == |q.record.members|
    ensures Step(q, e).persisted == q.persisted || Step(q, e).persisted == Step(q, e).record
  {
  }

  lemma EarnedRecord(p: Pool, run: seq<Event>, e: Event)
    requires Fresh(p) && AllEarned(p, run)
    ensures RunningEarned(p, run + [e], Step(Exec(p, run), e).record)
    ensures RunningEarned(p, run + [e], Step(Exec(p, run), e).persisted)
  {
    var (q, t) := (Exec(p, run), Step(Exec(p, run), e));
    SizeKept(q, e);
    forall i | 0 <= i < |t.record.members| && t.record.members[i].state.Running? ensures Earned(p, run + [e], i, Restored) {
      RunningStep(q, e, i);
      assert Earned(p, run, i, Restored);
      EarnedStays(p, run, e, i, Restored);
    }
    forall i | 0 <= i < |q.persisted.members| && q.persisted.members[i].state.Running? ensures Earned(p, run + [e], i, Restored) {
      EarnedStays(p, run, e, i, Restored);
    }
  }

  /** In every interleaving a member recorded RUNNING, in memory or on disk, was copied, registered and restored. */
  lemma {:induction false} RunningIsEarned(p: Pool, run: seq<Event>)
    requires Fresh(p)
    ensures AllEarned(p, run)
  {
    if run == [] {
      forall i | 0 <= i < |p.record.members| ensures !p.record.members[i].state.Running? { assert p.record.members[i] in p.record.members; }
      forall k | 0 <= k < |p.workers| ensures !p.workers[k].Busy? { assert p.workers[k] in p.workers; }
    } else {
      var (prefix, e) := (run[..|run| - 1], run[|run| - 1]);
      assert run == prefix + [e];
      RunningIsEarned(p, prefix);
      EarnedRecord(p, prefix, e);
      var (q, t) := (Exec(p, prefix), Exec(p, run));
      forall k | 0 <= k < |t.workers| && t.workers[k].Busy? ensures Earned(p, run, t.workers[k].member, t.workers[k].stage) {
        if k == e.k {
          EarnedWorker(p, prefix, e);
        } else {
          assert t.workers[k] == q.workers[k];
          EarnedStays(p, prefix, e, t.workers[k].member, t.workers[k].stage);
        }
      }
    }
  }

  /** Event j found a stage that did not work: the copy, the registration or the restore failed, or the root was taken. */
  ghost predicate Failing(p: Pool, run: seq<Event>, j: nat) {
    exists i, stage :: FailedAt(p, run, j, i, stage)
  }

  ghost predicate FailedAt(p: Pool, run: seq<Event>, j: nat, i: nat, stage: Stage) {
    && Met(p, run, j, i, stage) && (stage.Entered? || stage.Materialized? || stage.Recorded?)
    && (!run[j].ok || (stage.Entered? && p.record.members[i].root in Exec(p, run[..j]).roots))
  }

  lemma FailingEarlier(p: Pool, run: seq<Event>, n: nat, j: nat)
    requires j < n <= |run|
    ensures Failing(p, run[..n], j) <==> Failing(p, run, j)
  {
    assert run[..n][..j] == run[..j];
    forall i: nat, stage: Stage ensures FailedAt(p, run[..n], j, i, stage) <==> FailedAt(p, run, j, i, stage) {}
  }

  /** The pool counts a failure exactly when some stage of some member did not work. */
  lemma {:induction false} FailuresIff(p: Pool, run: seq<Event>)
    requires Fresh(p)
    ensures Exec(p, run).failures > 0 <==> exists j: nat :: j < |run| && Failing(p, run, j)
  {
    if run != [] {
      var n := |run| - 1;
      FailuresIff(p, run[..n]);
      forall j: nat | j < n ensures Failing(p, run[..n], j) <==> Failing(p, run, j) { FailingEarlier(p, run, n, j); }
      FailsNow(p, run);
    }
  }

  /** A stage that can fail does: its step failed, or the copy found its root taken. */
  predicate Breaks(q: Pool, e: Event, i: nat, stage: Stage)
    requires i < |q.record.members|
  {
    && (stage.Entered? || stage.Materialized? || stage.Recorded?)
    && (!e.ok || (stage.Entered? && q.record.members[i].root in q.roots))
  }

  lemma StepFailures(q: Pool, e: Event)
    requires forall k | 0 <= k < |q.workers| && q.workers[k].Busy? :: q.workers[k].member < |q.record.members|
    ensures Step(q, e).failures == q.failures + if e.k < |q.workers| && q.workers[e.k].Busy?
                                                   && Breaks(q, e, q.workers[e.k].member, q.workers[e.k].stage) then 1 else 0
  {
  }

  /** The last event adds a failure exactly when its stage did not work. */
  lemma FailsNow(p: Pool, run: seq<Event>)
    requires Fresh(p) && run != []
    ensures Exec(p, run).failures == Exec(p, run[..|run| - 1]).failures + if Failing(p, run, |run| - 1) then 1 else 0
  {
    var n := |run| - 1;
    PlanKept(p, run[..n]);
    CoveredAlways(p, run[..n]);
    StepFailures(Exec(p, run[..n]), run[n]);
    FailingIs(p, run, n);
  }

  lemma FailingIs(p: Pool, run: seq<Event>, n: nat)
    requires n < |run| && SamePlan(p.record, Exec(p, run[..n]).record)
    ensures var (q, e) := (Exec(p, run[..n]), run[n]);
            Failing(p, run, n) <==> e.k < |q.workers| && q.workers[e.k].Busy? && q.workers[e.k].member < |q.record.members|
                                    && Breaks(q, e, q.workers[e.k].member, q.workers[e.k].stage)
  {
    var (q, e) := (Exec(p, run[..n]), run[n]);
    if e.k < |q.workers| && q.workers[e.k].Busy? {
      var (i, stage) := (q.workers[e.k].member, q.workers[e.k].stage);
      assert FailedAt(p, run, n, i, stage) <==> i < |q.record.members| && Breaks(q, e, i, stage);
    }
  }

  /** In every interleaving the pool finishes without a failure only if every member was built and reached RUNNING. */
  lemma FinishedWithoutFailure(p: Pool, run: seq<Event>)
    requires Fresh(p) && Finished(Exec(p, run)) && Exec(p, run).failures == 0
    ensures FullyRunning(Exec(p, run).record)
    ensures forall i | 0 <= i < |p.record.members| :: Earned(p, run, i, Restored)
  {
    RunningIsEarned(p, run);
    CoveredAlways(p, run);
    PlanKept(p, run);
    var q := Exec(p, run);
    forall k | 0 <= k < |q.workers| ensures q.workers[k].Gone? { assert q.workers[k] in q.workers; }
    assert q.workers[0].Gone?;
    forall i | 0 <= i < |q.record.members| ensures q.record.members[i].state.Running? { assert !OnIt(q, i); }
  }

  /** Members keep their identity, name and root; only state and created change. */
  ghost predicate SamePlan(r: Record, s: Record) {
    && r.state == s.state && r.count == s.count && r.sourceRoot == s.sourceRoot && |r.members| == |s.members|
    && forall i | 0 <= i < |r.members| :: r.members[i].id == s.members[i].id && r.members[i].root == s.members[i].root
  }

  /** A member recorded RUNNING, in memory or on disk, has its root on disk and its workload registered. */
  ghost predicate Truthful(r: Record, p: Pool) {
    forall i | 0 <= i < |r.members| && r.members[i].state.Running? ::
      r.members[i].root in p.roots && r.members[i].id in p.registry
  }

  /** A worker past a stage has left that stage's trace behind. */
  ghost predicate Traced(p: Pool) {
    forall k | 0 <= k < |p.workers| && p.workers[k].Busy? && p.workers[k].member < |p.record.members| ::
      var (m, s) := (p.record.members[p.workers[k].member], p.workers[k].stage);
      && (!s.Entered? ==> m.root in p.roots)
      && (!s.Entered? && !s.Materialized? ==> m.id in p.registry)
  }

  lemma {:induction false} PlanKept(p: Pool, run: seq<Event>)
    requires Fresh(p)
    ensures Kept(p.record, Exec(p, run))
    ensures p.roots <= Exec(p, run).roots
  {
    if run == [] {
      forall i | 0 <= i < |p.record.members| ensures !p.record.members[i].state.Running? { assert p.record.members[i] in p.record.members; }
      forall k | 0 <= k < |p.workers| ensures !p.workers[k].Busy? { assert p.workers[k] in p.workers; }
    } else {
      PlanKept(p, run[..|run| - 1]);
      KeptStep(p.record, Exec(p, run[..|run| - 1]), run[|run| - 1]);
    }
  }

  ghost predicate Kept(plan: Record, p: Pool) {
    && SamePlan(plan, p.record) && SamePlan(plan, p.persisted)
    && Truthful(p.record, p) && Truthful(p.persisted, p) && Traced(p)
  }

  /** A record write keeps the plan when the new member keeps its identity and tells the truth. */
  lemma KeptSetMember(plan: Record, p: Pool, i: nat, m: Member, putOk: bool)
    requires Kept(plan, p) && i < |p.record.members|
    requires m.id == p.record.members[i].id && m.root == p.record.members[i].root
    requires m.state.Running? ==> m.root in p.roots && m.id in p.registry
    ensures Kept(plan, SetMember(p, i, m, putOk))
  {
    var q := SetMember(p, i, m, putOk);
    forall k | 0 <= k < |q.workers| && q.workers[k].Busy? && q.workers[k].member < |q.record.members|
      ensures var (n, s) := (q.record.members[q.workers[k].member], q.workers[k].stage);
              && (!s.Entered? ==> n.root in q.roots) && (!s.Entered? && !s.Materialized? ==> n.id in q.registry)
    {
      assert p.workers[k] == q.workers[k];
    }
  }

  /** Moving a worker keeps it all when the member's trace for the new stage is there. */
  lemma KeptAt(plan: Record, p: Pool, k: nat, w: Worker)
    requires Kept(plan, p) && k < |p.workers|
    requires w.Busy? ==> w.member < |p.record.members|
    requires w.Busy? && !w.stage.Entered? ==> p.record.members[w.member].root in p.roots
    requires w.Busy? && !w.stage.Entered? && !w.stage.Materialized? ==> p.record.members[w.member].id in p.registry
    ensures Kept(plan, At(p, k, w))
  {
  }

  /** More roots and registrations, a new counter or a new failure count change nothing that was kept. */
  lemma KeptGrows(plan: Record, p: Pool, q: Pool)
    requires Kept(plan, p) && q.record == p.record && q.persisted == p.persisted && q.workers == p.workers
    requires p.roots <= q.roots && p.registry <= q.registry
    ensures Kept(plan, q)
  {
  }

  lemma KeptWork(plan: Record, p: Pool, e: Event, i: nat, stage: Stage)
    requires Kept(plan, p) && e.k < |p.workers| && i < |p.record.members| && p.workers[e.k] == Busy(i, stage)
    ensures Kept(plan, Work(p, e, i, stage)) && p.roots <= Work(p, e, i, stage).roots
  {
    var m := p.record.members[i];
    KeptAt(plan, p, e.k, Gone);
    KeptGrows(plan, At(p, e.k, Gone), Fail(p, e.k));
    match stage {
      case Entered =>
        var grown := p.(roots := p.roots + {m.root});
        KeptGrows(plan, p, grown);
        KeptAt(plan, grown, e.k, Busy(i, Materialized));
        KeptGrows(plan, Fail(p, e.k), Fail(p, e.k).(roots := p.roots + {m.root}));
      case Materialized =>
        var grown := p.(registry := p.registry + {m.id});
        KeptGrows(plan, p, grown);
        KeptAt(plan, grown, e.k, Busy(i, Registered(m.id !in p.registry)));
      case Registered(created) =>
        KeptSetMember(plan, p, i, m.(created := created), e.putOk);
        KeptAt(plan, SetMember(p, i, m.(created := created), e.putOk), e.k, Busy(i, Recorded));
      case Recorded => KeptAt(plan, p, e.k, Busy(i, Restored));
      case Restored =>
        KeptSetMember(plan, p, i, m.(state := Running), e.putOk);
        KeptAt(plan, SetMember(p, i, m.(state := Running), e.putOk), e.k, Ready);
    }
  }

  lemma KeptStep(plan: Record, p: Pool, e: Event)
    requires Kept(plan, p)
    ensures Kept(plan, Step(p, e)) && p.roots <= Step(p, e).roots
  {
    if e.k < |p.workers| {
      match p.workers[e.k] {
        case Ready =>
          if p.next >= |p.record.members| {
            KeptAt(plan, p, e.k, Gone);
          } else {
            var m := p.record.members[p.next].(state := Materializing);
            var q := SetMember(p, p.next, m, e.putOk);
            KeptSetMember(plan, p, p.next, m, e.putOk);
            KeptAt(plan, q, e.k, Busy(p.next, Entered));
            KeptGrows(plan, At(q, e.k, Busy(p.next, Entered)), Step(p, e));
          }
        case Busy(i, stage) => if i < |p.record.members| { KeptWork(plan, p, e, i, stage); }
        case Gone =>
      }
    }
  }

  lemma GrowsStep(p: Pool, e: Event, roots: set<Root>, ids: set<WorkloadId>)
    requires forall i | 0 <= i < |p.record.members| :: p.record.members[i].root in roots && p.record.members[i].id in ids
    ensures p.roots <= Step(p, e).roots <= p.roots + roots
    ensures p.registry <= Step(p, e).registry <= p.registry + ids
  {
  }

  /** The pool adds nothing to the disk or the registry that the plan does not name. */
  lemma {:induction false} GrowsByPlan(p: Pool, run: seq<Event>)
    requires Fresh(p)
    ensures p.roots <= Exec(p, run).roots <= p.roots + PlannedRoots(p.record)
    ensures p.registry <= Exec(p, run).registry <= p.registry + PlannedIds(p.record)
  {
    if run != [] {
      var n := |run| - 1;
      GrowsByPlan(p, run[..n]);
      PlanKept(p, run[..n]);
      var q := Exec(p, run[..n]);
      forall i | 0 <= i < |q.record.members|
        ensures q.record.members[i].root in PlannedRoots(p.record) && q.record.members[i].id in PlannedIds(p.record)
      {
        assert p.record.members[i] in p.record.members;
      }
      GrowsStep(q, run[n], PlannedRoots(p.record), PlannedIds(p.record));
    }
  }

  // ---------------------------------------------------------------- which workloads are flagged as created

  ghost predicate Registering(p: Pool, i: nat) {
    exists k | 0 <= k < |p.workers| :: p.workers[k] == Busy(i, Registered(true))
  }

  /** A member of that identity is flagged as created, or about to be. */
  ghost predicate Answered(p: Pool, x: WorkloadId) {
    exists i | 0 <= i < |p.record.members| :: p.record.members[i].id == x && (p.record.members[i].created || Registering(p, i))
  }

  /** A record flags only workloads that were not there before and are there now. */
  ghost predicate FlagsNew(before: set<WorkloadId>, r: Record, registry: set<WorkloadId>) {
    forall i | 0 <= i < |r.members| && r.members[i].created :: r.members[i].id !in before && r.members[i].id in registry
  }

  /** No member is flagged before its registration is recorded, and a registration about to be recorded is a new one. */
  ghost predicate FlagsInTime(before: set<WorkloadId>, p: Pool) {
    && (forall i | p.next <= i < |p.record.members| :: !p.record.members[i].created)
    && (forall k | 0 <= k < |p.workers| && p.workers[k].Busy? && p.workers[k].member < |p.record.members| ::
          FlagsAt(before, p, p.workers[k].member, p.workers[k].stage))
  }

  ghost predicate FlagsAt(before: set<WorkloadId>, p: Pool, i: nat, stage: Stage)
    requires i < |p.record.members|
  {
    var m := p.record.members[i];
    && (stage.Entered? || stage.Materialized? || stage.Registered? ==> !m.created)
    && (stage == Registered(true) ==> m.id !in before && m.id in p.registry)
  }

  ghost predicate Flagged(before: set<WorkloadId>, p: Pool) {
    && FlagsInTime(before, p) && before <= p.registry
    && FlagsNew(before, p.record, p.registry) && FlagsNew(before, p.persisted, p.registry)
    && forall x | x in p.registry && x !in before :: Answered(p, x)
  }

  /** What was answered for stays so when the member's flag and its registering worker do. */
  lemma AnsweredStays(p: Pool, q: Pool, x: WorkloadId)
    requires Answered(p, x) && |p.record.members| == |q.record.members|
    requires forall i | 0 <= i < |p.record.members| ::
               q.record.members[i].id == p.record.members[i].id &&
               (p.record.members[i].created || Registering(p, i) ==> q.record.members[i].created || Registering(q, i))
    ensures Answered(q, x)
  {
  }

  lemma FlaggedTake(before: set<WorkloadId>, p: Pool, k: nat, putOk: bool)
    requires Flagged(before, p) && Covered(p) && k < |p.workers| && p.workers[k].Ready?
    ensures Flagged(before, Take(p, k, putOk))
  {
    var q := Take(p, k, putOk);
    forall i | 0 <= i < |p.record.members| && Registering(p, i) ensures Registering(q, i) {
      var j :| 0 <= j < |p.workers| && p.workers[j] == Busy(i, Registered(true));
      assert q.workers[j] == p.workers[j];
    }
    forall x | x in q.registry && x !in before ensures Answered(q, x) { AnsweredStays(p, q, x); }
  }

  /** A stage that neither registers nor records a registration. */
  lemma FlaggedElse(before: set<WorkloadId>, p: Pool, e: Event, i: nat, stage: Stage)
    requires Flagged(before, p) && Covered(p) && e.k < |p.workers| && p.workers[e.k] == Busy(i, stage)
    requires stage.Entered? || stage.Recorded? || stage.Restored? || (stage.Materialized? && !e.ok)
    ensures Flagged(before, Work(p, e, i, stage))
  {
    var q := Work(p, e, i, stage);
    forall i | 0 <= i < |p.record.members| && Registering(p, i) ensures Registering(q, i) {
      var j :| 0 <= j < |p.workers| && p.workers[j] == Busy(i, Registered(true));
      assert q.workers[j] == p.workers[j];
    }
    forall x | x in q.registry && x !in before ensures Answered(q, x) { AnsweredStays(p, q, x); }
  }

  lemma FlaggedRegister(before: set<WorkloadId>, p: Pool, e: Event, i: nat)
    requires Flagged(before, p) && Covered(p) && e.k < |p.workers| && p.workers[e.k] == Busy(i, Materialized) && e.ok
    ensures Flagged(before, Work(p, e, i, Materialized))
  {
    var q := Work(p, e, i, Materialized);
    forall i | 0 <= i < |p.record.members| && Registering(p, i) ensures Registering(q, i) {
      var j :| 0 <= j < |p.workers| && p.workers[j] == Busy(i, Registered(true));
      assert q.workers[j] == p.workers[j];
    }
    forall x | x in q.registry && x !in before ensures Answered(q, x) {
      if x in p.registry {
        AnsweredStays(p, q, x);
      } else {
        assert q.workers[e.k] == Busy(i, Registered(true)) && Registering(q, i) && q.record.members[i].id == x;
      }
    }
  }

  lemma FlaggedRecord(before: set<WorkloadId>, p: Pool, e: Event, i: nat, created: bool)
    requires Flagged(before, p) && Covered(p) && e.k < |p.workers| && p.workers[e.k] == Busy(i, Registered(created))
    ensures Flagged(before, Work(p, e, i, Registered(created)))
  {
    var q := Work(p, e, i, Registered(created));
    assert FlagsAt(before, p, i, Registered(created));
    forall n | 0 <= n < |p.record.members| && Registering(p, n) ensures q.record.members[n].created || Registering(q, n) {
      var j :| 0 <= j < |p.workers| && p.workers[j] == Busy(n, Registered(true));
      if j != e.k { assert q.workers[j] == p.workers[j]; }
    }
    forall x | x in q.registry && x !in before ensures Answered(q, x) { AnsweredStays(p, q, x); }
  }

  /**
   In every interleaving: a member flagged as created, in memory or on disk, is a workload this pool registered, and
   every workload this pool registered is flagged in memory or in the hands of the worker about to flag it.
   */
  lemma {:induction false} FlaggedAlways(p: Pool, run: seq<Event>)
    requires Fresh(p)
    ensures Flagged(p.registry, Exec(p, run))
  {
    if run == [] {
      forall i | 0 <= i < |p.record.members| ensures !p.record.members[i].created { assert p.record.members[i] in p.record.members; }
      forall k | 0 <= k < |p.workers| ensures !p.workers[k].Busy? { assert p.workers[k] in p.workers; }
    } else {
      var n := |run| - 1;
      FlaggedAlways(p, run[..n]);
      CoveredAlways(p, run[..n]);
      var (q, e) := (Exec(p, run[..n]), run[n]);
      if e.k < |q.workers| {
        match q.workers[e.k] {
          case Ready => FlaggedTake(p.registry, q, e.k, e.putOk);
          case Busy(i, stage) => FlaggedWork(p.registry, q, e, i, stage);
          case Gone =>
        }
      }
    }
  }

  lemma FlaggedWork(before: set<WorkloadId>, p: Pool, e: Event, i: nat, stage: Stage)
    requires Flagged(before, p) && Covered(p) && e.k < |p.workers| && p.workers[e.k] == Busy(i, stage)
    ensures Flagged(before, Work(p, e, i, stage))
  {
    if stage.Registered? {
      FlaggedRecord(before, p, e, i, stage.created);
    } else if stage.Materialized? && e.ok {
      FlaggedRegister(before, p, e, i);
    } else {
      FlaggedElse(before, p, e, i, stage);
    }
  }

  /** Once no worker is left, the in-memory record flags exactly the workloads the pool registered. */
  lemma FinishedFlags(p: Pool, run: seq<Event>)
    requires Fresh(p) && Finished(Exec(p, run))
    ensures Exec(p, run).registry - p.registry == CreatedIds(Exec(p, run).record)
  {
    FlaggedAlways(p, run);
    var q := Exec(p, run);
    forall i ensures !Registering(q, i) {
      assert forall k | 0 <= k < |q.workers| :: q.workers[k] in q.workers;
    }
    forall x | x in q.registry - p.registry ensures x in CreatedIds(q.record) {
      assert Answered(q, x);
      var i :| 0 <= i < |q.record.members| && q.record.members[i].id == x && (q.record.members[i].created || Registering(q, i));
      assert q.record.members[i] in q.record.members;
    }
  }

  /** A crash anywhere in the pool: what Recover would commit is really built. */
  lemma RecoverableCommitIsBuilt(p: Pool, run: seq<Event>)
    requires Fresh(p) && FullyRunning(Exec(p, run).persisted)
    ensures forall m <- Exec(p, run).persisted.members ::
              m.root in Exec(p, run).roots && m.id in Exec(p, run).registry
    ensures forall i | 0 <= i < |p.record.members| :: Earned(p, run, i, Restored)
  {
    RunningIsEarned(p, run);
    PlanKept(p, run);
  }
}

/** The cloner's commit, rollback and recovery over every stored set. */
module CloneSet {
  import opened ClonePlan

  import ClonePool

  type SetId = nat

  datatype Outcome = Refused | Built | LeftUp | Reversed | Stuck | Died

  /** What the runtime and the disk answer: deleting a workload, removing a root, writing the record. */
  datatype Weather = Weather(deletes: set<WorkloadId>, removes: set<Root>, firstPut: bool, lastPut: bool, diesAt: nat)

  /** A set that needs no more work: committed with every member running, or rolled back with nothing left of it. */
  ghost predicate Settled(r: Record, roots: set<Root>, registry: set<WorkloadId>, leaked: set<WorkloadId>) {
    || (r.state.Committed? && FullyRunning(r))
    || (r.state.RolledBack? && MemberRoots(r) !! roots && CreatedIds(r) * registry <= leaked)
  }

  /** What every stored record promises at any time: its terminal states are true. */
  ghost predicate Sound(r: Record, roots: set<Root>, registry: set<WorkloadId>, leaked: set<WorkloadId>) {
    r.state.Committed? || r.state.RolledBack? ==> Settled(r, roots, registry, leaked)
  }

  /** What a finished member loop leaves of the disk. */
  function RootsAfter(roots: set<Root>, r: Record): set<Root> {
    roots - MemberRoots(r)
  }

  function RegistryAfter(registry: set<WorkloadId>, r: Record, deletes: set<WorkloadId>): set<WorkloadId> {
    registry - (CreatedIds(r) * deletes)
  }

  predicate Removable(m: Member, sourceRoot: Root, env: Weather) {
    m.root == sourceRoot || m.root in env.removes
  }

  /** The first n members. */
  function Prefix(r: Record, n: nat): Record
    requires n <= |r.members|
  {
    r.(members := r.members[..n])
  }

  lemma PrefixGrows(r: Record, i: nat)
    requires i < |r.members|
    ensures MemberRoots(Prefix(r, i + 1)) ==
              MemberRoots(Prefix(r, i)) + (if r.members[i].root != r.sourceRoot then {r.members[i].root} else {})
    ensures CreatedIds(Prefix(r, i + 1)) ==
              CreatedIds(Prefix(r, i)) + (if r.members[i].created then {r.members[i].id} else {})
    ensures MemberRoots(Prefix(r, i + 1)) <= MemberRoots(r) && CreatedIds(Prefix(r, i + 1)) <= CreatedIds(r)
  {
    assert r.members[..i + 1] == r.members[..i] + [r.members[i]];
  }

  /** What undoing one more member removes. */
  lemma UndoNext(roots: set<Root>, registry: set<WorkloadId>, r: Record, i: nat, deletes: set<WorkloadId>)
    requires i < |r.members|
    ensures var m := r.members[i];
            && RootsAfter(roots, Prefix(r, i + 1)) ==
                 RootsAfter(roots, Prefix(r, i)) - (if m.root != r.sourceRoot then {m.root} else {})
            && RegistryAfter(registry, Prefix(r, i + 1), deletes) ==
                 RegistryAfter(registry, Prefix(r, i), deletes) - (if m.created && m.id in deletes then {m.id} else {})
            && CreatedIds(Prefix(r, i + 1)) - deletes ==
                 (CreatedIds(Prefix(r, i)) - deletes) + (if m.created && m.id !in deletes then {m.id} else {})
  {
    PrefixGrows(r, i);
  }

  /** Stopped anywhere, a rollback has removed no more than a completed one would. */
  lemma UndoBounds(roots: set<Root>, registry: set<WorkloadId>, r: Record, i: nat, deletes: set<WorkloadId>)
    requires i <= |r.members|
    ensures RootsAfter(roots, r) <= RootsAfter(roots, Prefix(r, i)) <= roots
    ensures RegistryAfter(registry, r, deletes) <= RegistryAfter(registry, Prefix(r, i), deletes) <= registry
    ensures CreatedIds(Prefix(r, i)) <= CreatedIds(r) && MemberRoots(Prefix(r, i)) <= MemberRoots(r)
  {
  }

  lemma SamePlanRoots(r: Record, s: Record)
    requires ClonePool.SamePlan(r, s)
    ensures PlannedRoots(r) == PlannedRoots(s) && MemberRoots(s) == PlannedRoots(r) - {r.sourceRoot}
  {
    forall i | 0 <= i < |r.members| ensures s.members[i] in s.members && r.members[i] in r.members {}
    forall x | x in PlannedRoots(r) ensures x in PlannedRoots(s) {
      var i :| 0 <= i < |r.members| && r.members[i].root == x;
      assert s.members[i].root == x;
    }
  }

  lemma SamePlanAs(plan: Record, record: Record)
    requires record.members == plan.members && record.sourceRoot == plan.sourceRoot
    ensures PlannedRoots(record) == PlannedRoots(plan) && PlannedIds(record) == PlannedIds(plan)
    ensures MemberRoots(record) == MemberRoots(plan) == PlannedRoots(plan) - {plan.sourceRoot}
  {
  }

  lemma RunningIsBuilt(plan: Record, r: Record, pool: ClonePool.Pool)
    requires ClonePool.SamePlan(plan, r) && ClonePool.Truthful(r, pool) && FullyRunning(r)
    ensures PlannedRoots(plan) <= pool.roots
  {
    SamePlanRoots(plan, r);
  }

  /** Marking members undone moves no root and creates no workload. */
  lemma UndoneKeepsPlan(r: Record, s: Record)
    requires |r.members| == |s.members| && r.sourceRoot == s.sourceRoot
    requires forall i | 0 <= i < |r.members| :: s.members[i] == r.members[i].(state := Undone)
    ensures MemberRoots(r) == MemberRoots(s) && CreatedIds(r) == CreatedIds(s)
  {
    forall i | 0 <= i < |r.members| ensures s.members[i] in s.members && r.members[i] in r.members {}
  }

  /** Removing roots, workloads and adding leaks keeps every settled set settled. */
  lemma SettledShrinks(r: Record, roots: set<Root>, registry: set<WorkloadId>, leaked: set<WorkloadId>,
                       roots': set<Root>, registry': set<WorkloadId>, leaked': set<WorkloadId>)
    requires Sound(r, roots, registry, leaked) && roots' <= roots && registry' <= registry && leaked <= leaked'
    ensures Sound(r, roots', registry', leaked')
  {
  }

  /** What another set's pool adds to the disk and the registry is not this set's. */
  lemma SettledGrows(r: Record, roots: set<Root>, registry: set<WorkloadId>, leaked: set<WorkloadId>,
                     plannedRoots: set<Root>, plannedIds: set<WorkloadId>, roots': set<Root>, registry': set<WorkloadId>)
    requires Sound(r, roots, registry, leaked) && MemberRoots(r) !! plannedRoots && CreatedIds(r) !! plannedIds
    requires roots' <= roots + plannedRoots && registry' <= registry + plannedIds
    ensures Sound(r, roots', registry', leaked)
  {
  }

  /** The pool as it starts over a fresh plan. */
  function StartPool(record: Record, roots: set<Root>, registry: set<WorkloadId>, workers: nat): ClonePool.Pool {
    ClonePool.Pool(record, record, roots, registry, 0, seq(workers, _ => ClonePool.Ready), 0)
  }

  /** In this schedule every member was copied to a free root, registered, and its process restored. */
  ghost predicate AllBuilt(record: Record, roots: set<Root>, registry: set<WorkloadId>, workers: nat, schedule: seq<ClonePool.Event>) {
    forall i | 0 <= i < |record.members| ::
      ClonePool.Earned(StartPool(record, roots, registry, workers), schedule, i, ClonePool.Restored)
  }

  /** The pool over a fresh plan after a schedule. */
  ghost function Driven(record: Record, roots: set<Root>, registry: set<WorkloadId>, workers: nat,
                        schedule: seq<ClonePool.Event>): ClonePool.Pool
  {
    ClonePool.Exec(StartPool(record, roots, registry, workers), schedule)
  }

  /** All that every interleaving of the pool guarantees, crashed at any point or run to its end. */
  lemma DrivenIsSound(record: Record, roots: set<Root>, registry: set<WorkloadId>, workers: nat, schedule: seq<ClonePool.Event>)
    requires record.state.Cloning? && record.count >= 1 && |record.members| == record.count && workers >= 1
    requires forall m <- record.members :: m.state.Pending? && !m.created
    ensures var pool := Driven(record, roots, registry, workers, schedule);
            && ClonePool.SamePlan(record, pool.record) && ClonePool.SamePlan(record, pool.persisted)
            && roots <= pool.roots <= roots + PlannedRoots(record)
            && registry <= pool.registry <= registry + PlannedIds(record)
            && (FullyRunning(pool.persisted) || FullyRunning(pool.record) ==>
                  PlannedRoots(record) <= pool.roots && AllBuilt(record, roots, registry, workers, schedule))
            && (ClonePool.Finished(pool) && pool.failures == 0 ==> FullyRunning(pool.record))
  {
    var start := StartPool(record, roots, registry, workers);
    var pool := ClonePool.Exec(start, schedule);
    ClonePool.PlanKept(start, schedule);
    ClonePool.GrowsByPlan(start, schedule);
    ClonePool.RunningIsEarned(start, schedule);
    if FullyRunning(pool.persisted) { RunningIsBuilt(record, pool.persisted, pool); }
    if FullyRunning(pool.record) { RunningIsBuilt(record, pool.record, pool); }
    if ClonePool.Finished(pool) && pool.failures == 0 { ClonePool.FinishedWithoutFailure(start, schedule); }
  }

  /** What the pool registered is new, and once it has finished the record flags all of it and nothing else. */
  lemma DrivenFlags(record: Record, roots: set<Root>, registry: set<WorkloadId>, workers: nat, schedule: seq<ClonePool.Event>)
    requires record.state.Cloning? && record.count >= 1 && |record.members| == record.count && workers >= 1
    requires forall m <- record.members :: m.state.Pending? && !m.created
    ensures var pool := Driven(record, roots, registry, workers, schedule);
            && CreatedIds(pool.record) !! registry && CreatedIds(pool.persisted) !! registry
            && (ClonePool.Finished(pool) ==> pool.registry == registry + CreatedIds(pool.record))
  {
    var start := StartPool(record, roots, registry, workers);
    var pool := ClonePool.Exec(start, schedule);
    ClonePool.FlaggedAlways(start, schedule);
    if ClonePool.Finished(pool) { ClonePool.FinishedFlags(start, schedule); }
  }

  /** The member loop of a rollback finishes: no root resists, and the agent lives through it. */
  predicate UndoesMembers(record: Record, env: Weather) {
    env.diesAt >= |record.members| && MemberRoots(record) <= env.removes
  }

  /** A rollback completes: its member loop finishes and the last write lands. */
  predicate Undoes(record: Record, env: Weather) {
    UndoesMembers(record, env) && env.lastPut
  }

  /** Where a set ends once its pool has run: a schedule that leaves a worker is a crash. */
  ghost function OutcomeOf(pool: ClonePool.Pool, puts: seq<bool>, env: Weather): Outcome {
    if !ClonePool.Finished(pool) then Died
    else if pool.failures == 0 then (if true in puts then Built else LeftUp)
    else if FullyRunning(pool.record) then LeftUp
    else if Undoes(pool.record, env) then Reversed else Stuck
  }

  /** What Recover has to undo: neither finished nor ready to be committed. */
  predicate Doomed(r: Record) {
    !r.state.Committed? && !r.state.RolledBack? && !(r.state.Cloning? && FullyRunning(r))
  }

  /** An error-free Recover leaves the set rolled back: it was, or it has to be undone. */
  predicate EndsUndone(r: Record) {
    r.state.RolledBack? || Doomed(r)
  }

  /** Recovering the set meets no error. */
  predicate Recovers(r: Record, env: Weather, puts: seq<bool>) {
    if Doomed(r) then Undoes(r, env) else r.state.Cloning? ==> true in puts
  }

  /** A set among these has to be undone, and the root is one of its members'. */
  ghost predicate RootGoes(records: map<SetId, Record>, ids: set<SetId>, x: Root) {
    exists id <- ids :: id in records && Doomed(records[id]) && x in MemberRoots(records[id])
  }

  /** A set among these has to be undone, flags the workload as created, and its delete works. */
  ghost predicate WorkloadGoes(records: map<SetId, Record>, envs: map<SetId, Weather>, ids: set<SetId>, x: WorkloadId) {
    exists id <- ids :: id in records && id in envs && Doomed(records[id]) && x in CreatedIds(records[id]) && x in envs[id].deletes
  }

  /** The stored records, the disk, the registry and the workloads whose delete failed. */
  datatype World = World(records: map<SetId, Record>, roots: set<Root>, registry: set<WorkloadId>, leaked: set<WorkloadId>)

  /** The set is settled, and committed exactly if it did not have to be undone. */
  ghost predicate SettledAs(was: Record, w: World, id: SetId)
    requires id in w.records
  {
    Settled(w.records[id], w.roots, w.registry, w.leaked) && (w.records[id].state.Committed? <==> !EndsUndone(was))
  }

  /**
   What recovering one set does: other records stay; a set that is not doomed loses nothing, a doomed one no more than its
   member roots and the workloads it created, and exactly those when it works, except where a delete fails.
   */
  ghost predicate Recovered(w: World, v: World, id: SetId, env: Weather, ok: bool) {
    && id in w.records && v.records.Keys == w.records.Keys
    && (forall other <- v.records :: other != id ==> v.records[other] == w.records[other])
    && (ok ==> SettledAs(w.records[id], v, id))
    && (!ok ==> v.records[id] == w.records[id] || (Doomed(w.records[id]) && v.records[id] == w.records[id].(state := RollingBack)))
    && v.roots <= w.roots && v.registry <= w.registry && w.leaked <= v.leaked
    && (!Doomed(w.records[id]) ==> v.roots == w.roots && v.registry == w.registry)
    && RootsAfter(w.roots, w.records[id]) <= v.roots && RegistryAfter(w.registry, w.records[id], env.deletes) <= v.registry
    && (ok && Doomed(w.records[id]) ==> && v.roots == RootsAfter(w.roots, w.records[id])
                                        && v.registry == RegistryAfter(w.registry, w.records[id], env.deletes))
  }

  /**
   What is gone from the disk and the registry after these sets: only what had to go, and without an error all of it. So
   a registered workload is still there exactly if no doomed set flagged it as created, or its delete failed.
   */
  ghost predicate Lost(w: World, v: World, envs: map<SetId, Weather>, ids: set<SetId>, exact: bool) {
    && v.roots <= w.roots && v.registry <= w.registry
    && (forall x | x in w.roots && x !in v.roots :: RootGoes(w.records, ids, x))
    && (forall x | x in w.registry && x !in v.registry :: WorkloadGoes(w.records, envs, ids, x))
    && (exact ==> forall x | x in v.roots :: !RootGoes(w.records, ids, x))
    && (exact ==> forall x | x in v.registry :: !WorkloadGoes(w.records, envs, ids, x))
  }

  lemma LostMore(start: World, w: World, v: World, envs: map<SetId, Weather>, ids: set<SetId>, id: SetId, exact: bool, ok: bool)
    requires id in envs && id in start.records && Lost(start, w, envs, ids, exact)
    requires id in w.records && w.records[id] == start.records[id] && Recovered(w, v, id, envs[id], ok)
    ensures Lost(start, v, envs, ids + {id}, exact && ok)
  {
    var r := start.records[id];
    forall x ensures RootGoes(start.records, ids + {id}, x) <==> RootGoes(start.records, ids, x) || (Doomed(r) && x in MemberRoots(r)) {}
    forall x ensures WorkloadGoes(start.records, envs, ids + {id}, x) <==>
                     WorkloadGoes(start.records, envs, ids, x) || (Doomed(r) && x in CreatedIds(r) && x in envs[id].deletes) {}
  }

  /** How far Recover has come when these sets are done. */
  ghost predicate Progress(start: World, w: World, envs: map<SetId, Weather>, puts: map<SetId, seq<bool>>,
                           done: set<SetId>, problems: set<SetId>)
    requires envs.Keys == start.records.Keys == puts.Keys
  {
    && w.records.Keys == start.records.Keys && done <= start.records.Keys && problems <= done
    && (forall id <- done :: id in problems <==> !Recovers(start.records[id], envs[id], puts[id]))
    && (forall id <- w.records | id !in done :: w.records[id] == start.records[id])
    && (forall id <- done | id !in problems :: SettledAs(start.records[id], w, id))
    && Lost(start, w, envs, done, problems == {})
  }

  lemma ProgressMore(start: World, w: World, v: World, envs: map<SetId, Weather>, puts: map<SetId, seq<bool>>,
                     done: set<SetId>, problems: set<SetId>, id: SetId, ok: bool)
    requires envs.Keys == start.records.Keys == puts.Keys
    requires Progress(start, w, envs, puts, done, problems) && id in w.records && id !in done
    requires Recovered(w, v, id, envs[id], ok) && (ok <==> Recovers(start.records[id], envs[id], puts[id]))
    ensures Progress(start, v, envs, puts, done + {id}, if ok then problems else problems + {id})
  {
    LostMore(start, w, v, envs, done, id, problems == {}, ok);
    forall other <- done | other !in problems ensures SettledAs(start.records[other], v, other) {
      assert SettledAs(start.records[other], w, other);
      SettledShrinks(w.records[other], w.roots, w.registry, w.leaked, v.roots, v.registry, v.leaked);
    }
  }

  /** The sets attempted once the first n are. */
  ghost function Attempted(order: seq<SetId>, n: nat): set<SetId>
    requires n <= |order|
  {
    if n == 0 then {} else Attempted(order, n - 1) + {order[n - 1]}
  }

  lemma {:induction false} AttemptedIs(order: seq<SetId>, n: nat)
    requires n <= |order|
    ensures forall id :: id in Attempted(order, n) <==> exists j | 0 <= j < n :: order[j] == id
  {
    if n > 0 { AttemptedIs(order, n - 1); }
  }

  lemma AttemptedOnce(order: seq<SetId>, n: nat, keys: set<SetId>)
    requires (set id | id in order) == keys && forall i, j | 0 <= i < j < |order| :: order[i] != order[j]
    requires n <= |order|
    ensures n < |order| ==> order[n] in keys && order[n] !in Attempted(order, n)
    ensures n == |order| ==> Attempted(order, n) == keys
  {
    AttemptedIs(order, n);
    assert n < |order| ==> order[n] in order;
    assert forall id :: id in order <==> exists j | 0 <= j < |order| :: order[j] == id;
  }

  /** A source root is never one of its own set's member roots, so only another set can have taken it. */
  lemma SourceIsOwn(records: map<SetId, Record>, id: SetId)
    requires id in records && RootGoes(records, records.Keys, records[id].sourceRoot)
    ensures RootGoes(records, records.Keys - {id}, records[id].sourceRoot)
  {
  }

  /** What a clone may do to the disk and the registry, however it ends. */
  ghost predicate CloneFrame(plan: Record, roots: set<Root>, registry: set<WorkloadId>, roots': set<Root>, registry': set<WorkloadId>) {
    && roots - roots' <= MemberRoots(plan) && roots' <= roots + PlannedRoots(plan)
    && registry <= registry' <= registry + PlannedIds(plan)
  }

  /** Undoing a built set takes away no more than a clone may. */
  lemma UndoneFrame(record: Record, pool: ClonePool.Pool, roots: set<Root>, registry: set<WorkloadId>,
                    deletes: set<WorkloadId>, roots': set<Root>, registry': set<WorkloadId>)
    requires MemberRoots(pool.record) == MemberRoots(record) && CreatedIds(pool.record) !! registry
    requires roots <= pool.roots <= roots + PlannedRoots(record) && registry <= pool.registry <= registry + PlannedIds(record)
    requires RootsAfter(pool.roots, pool.record) <= roots' <= pool.roots
    requires RegistryAfter(pool.registry, pool.record, deletes) <= registry' <= pool.registry
    ensures CloneFrame(record, roots, registry, roots', registry')
  {
  }

  /** What a finished rollback leaves of what the pool registered. */
  lemma UndoneRegistry(pool: ClonePool.Pool, registry: set<WorkloadId>, deletes: set<WorkloadId>)
    requires pool.registry == registry + CreatedIds(pool.record) && CreatedIds(pool.record) !! registry
    ensures RegistryAfter(pool.registry, pool.record, deletes) == registry + (CreatedIds(pool.record) - deletes)
  {
  }

  /** Taking member roots away leaves every earlier root exactly when none of them was there earlier. */
  predicate LeavesEarlier(earlier: set<Root>, plan: Record, roots: set<Root>) {
    earlier <= roots <==> MemberRoots(plan) !! earlier
  }

  lemma ReversedLeavesEarlier(earlier: set<Root>, built: set<Root>, plan: Record, r: Record)
    requires earlier <= built && MemberRoots(r) == MemberRoots(plan)
    ensures LeavesEarlier(earlier, plan, RootsAfter(built, r))
  {
  }

  /** A rollback of the one record does what a rollback of the other does. */
  ghost predicate SameUndo(r: Record, s: Record) {
    && |r.members| == |s.members| && r.sourceRoot == s.sourceRoot
    && MemberRoots(r) == MemberRoots(s) && CreatedIds(r) == CreatedIds(s)
  }

  /** No other set has a member root or a created workload that the plan names. */
  ghost predicate PlanIsNew(records: map<SetId, Record>, id: SetId, plan: Record) {
    forall other <- records | other != id ::
      MemberRoots(records[other]) !! PlannedRoots(plan) && CreatedIds(records[other]) !! PlannedIds(plan)
  }

  /** cloneSetFullyRunning. */
  method IsFullyRunning(r: Record) returns (ok: bool)
    ensures ok <==> r.count >= 1 && |r.members| == r.count && forall m <- r.members :: m.state.Running?
    ensures ok <==> FullyRunning(r)
  {
    if r.count < 1 || |r.members| != r.count { return false; }
    for i := 0 to |r.members|
      invariant forall j | 0 <= j < i :: r.members[j].state.Running?
    {
      if !r.members[i].state.Running? { return false; }
    }
    return true;
  }

  class Cloner {
    var records: map<SetId, Record>
    var roots: set<Root>
    var registry: set<WorkloadId>
    // Workloads whose runtime delete failed inside a rollback, which ignores that error.
    ghost var leaked: set<WorkloadId>

    ghost predicate Valid()
      reads this
    {
      forall id <- records :: Sound(records[id], roots, registry, leaked)
    }

    constructor (stored: map<SetId, Record>, onDisk: set<Root>, registered: set<WorkloadId>)
      requires forall id <- stored :: Sound(stored[id], onDisk, registered, {})
      ensures Valid() && records == stored && roots == onDisk && registry == registered && leaked == {}
    {
      records, roots, registry, leaked := stored, onDisk, registered, {};
    }

    /** commit: up to three attempts to write COMMITTED. */
    method Commit(id: SetId, record: Record, puts: seq<bool>) returns (ok: bool)
      requires |puts| == 3
      requires record.state.Cloning? && FullyRunning(record)
      modifies this`records
      ensures old(Valid()) ==> Valid()
      ensures ok <==> true in puts
      ensures records == if ok then old(records)[id := record.(state := Committed)] else old(records)
    {
      for attempt := 0 to 3
        invariant records == old(records) && true !in puts[..attempt]
      {
        if puts[attempt] {
          records := records[id := record.(state := Committed)];
          return true;
        }
      }
      assert puts[..3] == puts;
      return false;
    }

    /** One member: its workload is deleted, that failure ignored, then its root is removed. */
    method UndoMember(m: Member, sourceRoot: Root, env: Weather) returns (ok: bool)
      modifies this`roots, this`registry, this`leaked
      ensures ok <==> Removable(m, sourceRoot, env)
      ensures roots == old(roots) - (if ok && m.root != sourceRoot then {m.root} else {})
      ensures registry == old(registry) - (if m.created && m.id in env.deletes then {m.id} else {})
      ensures leaked == old(leaked) + (if m.created && m.id !in env.deletes then {m.id} else {})
    {
      if m.created {
        if m.id in env.deletes { registry := registry - {m.id}; } else { leaked := leaked + {m.id}; }
      }
      if m.root != sourceRoot {
        if m.root !in env.removes { return false; }
        roots := roots - {m.root};
      }
      return true;
    }

    /** The member loop of rollback: the first n roots are removed, the first d deletes were tried. */
    method UndoMembers(record: Record, env: Weather) returns (current: Record, n: nat, d: nat)
      modifies this`roots, this`registry, this`leaked
      ensures n <= d <= |record.members| == |current.members|
      ensures current.state == RollingBack && current.sourceRoot == record.sourceRoot && current.count == record.count
      ensures forall j | 0 <= j < n :: current.members[j] == record.members[j].(state := Undone)
      ensures roots == RootsAfter(old(roots), Prefix(record, n))
      ensures registry == RegistryAfter(old(registry), Prefix(record, d), env.deletes)
      ensures leaked == old(leaked) + (CreatedIds(Prefix(record, d)) - env.deletes)
      ensures n <= env.diesAt && forall j | 0 <= j < n :: Removable(record.members[j], record.sourceRoot, env)
      ensures n < |record.members| ==> env.diesAt <= n || !Removable(record.members[n], record.sourceRoot, env)
    {
      current, n, d := record.(state := RollingBack), 0, 0;
      while n < |record.members|
        invariant n == d <= |record.members| == |current.members|
        invariant forall j | 0 <= j < n :: current.members[j] == record.members[j].(state := Undone)
        invariant current.state.RollingBack? && current.sourceRoot == record.sourceRoot && current.count == record.count
        invariant roots == RootsAfter(old(roots), Prefix(record, n))
        invariant registry == RegistryAfter(old(registry), Prefix(record, n), env.deletes)
        invariant leaked == old(leaked) + (CreatedIds(Prefix(record, n)) - env.deletes)
        invariant n <= env.diesAt && forall j | 0 <= j < n :: Removable(record.members[j], record.sourceRoot, env)
      {
        if env.diesAt <= n { return; }
        UndoNext(old(roots), old(registry), record, n, env.deletes);
        var ok := UndoMember(record.members[n], record.sourceRoot, env);
        d := n + 1;
        if !ok { return; }
        current := current.(members := current.members[n := record.members[n].(state := Undone)]);
        n := n + 1;
      }
    }

    /** rollback: stop, withdraw and delete every member, remove its root, then write ROLLED_BACK. */
    method Rollback(id: SetId, record: Record, env: Weather) returns (ok: bool)
      modifies this
      ensures old(Valid()) ==> Valid()
      ensures forall other <- old(records) :: other in records && (other != id ==> records[other] == old(records)[other])
      ensures forall other <- records :: other != id ==> other in old(records)
      // Nothing but member roots and recorded-created workloads is ever removed, and never the source root.
      ensures RootsAfter(old(roots), record) <= roots <= old(roots)
      ensures RegistryAfter(old(registry), record, env.deletes) <= registry <= old(registry)
      ensures record.sourceRoot in old(roots) ==> record.sourceRoot in roots
      ensures old(leaked) <= leaked <= old(leaked) + (CreatedIds(record) - env.deletes)
      // Completed exactly when no root resisted and the last write landed; then the set is settled.
      ensures ok <==> Undoes(record, env)
      ensures ok ==> && id in records && records[id].state == RolledBack
                     && SameUndo(record, records[id])
                     && Settled(records[id], roots, registry, leaked)
      // A finished member loop has done all there is to do, whether or not the last write landed.
      ensures UndoesMembers(record, env) ==> && roots == RootsAfter(old(roots), record)
                                             && registry == RegistryAfter(old(registry), record, env.deletes)
                                             && leaked == old(leaked) + (CreatedIds(record) - env.deletes)
      ensures !ok ==> records == if env.firstPut then old(records)[id := record.(state := RollingBack)] else old(records)
    {
      if env.firstPut { records := records[id := record.(state := RollingBack)]; }
      var current, n, d := UndoMembers(record, env);
      UndoBounds(old(roots), old(registry), record, n, env.deletes);
      UndoBounds(old(roots), old(registry), record, d, env.deletes);
      forall other <- records | old(Valid()) ensures Sound(records[other], roots, registry, leaked) {
        if other in old(records) {
          SettledShrinks(old(records)[other], old(roots), old(registry), old(leaked), roots, registry, leaked);
        }
      }
      if n < |record.members| { return false; }
      assert Prefix(record, n) == record;
      if !env.lastPut { return false; }
      UndoneKeepsPlan(record, current);
      records := records[id := current.(state := RolledBack)];
      return true;
    }

    /**
     A rollback run again, as Recover does after the first was interrupted or its last write was lost, under other
     weather. Once one run has finished its member loop, the roots are what they will be, and a later run deletes
     nothing but workloads whose delete had failed before.
     */
    method RollbackTwice(id: SetId, first: Weather, second: Weather)
      returns (done: bool, again: bool, ghost between: set<Root>, ghost known: set<WorkloadId>, ghost lost: set<WorkloadId>)
      requires id in records
      modifies this
      ensures old(Valid()) ==> Valid()
      ensures UndoesMembers(old(records[id]), first) || UndoesMembers(old(records[id]), second) ==>
                roots == RootsAfter(old(roots), old(records[id]))
      ensures UndoesMembers(old(records[id]), first) ==> roots == between && registry <= known && known - registry <= lost
      ensures again ==> id in records && records[id].state.RolledBack? && Settled(records[id], roots, registry, leaked)
      ensures (done <==> Undoes(old(records[id]), first)) && (again <==> Undoes(old(records[id]), second))
      ensures old(records[id]).sourceRoot in old(roots) ==> old(records[id]).sourceRoot in roots
    {
      ghost var record := records[id];
      done := Rollback(id, records[id], first);
      assert SameUndo(record, records[id]);
      between, known, lost := roots, registry, leaked;
      again := Rollback(id, records[id], second);
    }

    /** The pool runs over the stored plan; a crash leaves the record as far as its last successful write. */
    method RunPool(id: SetId, record: Record, workers: nat, schedule: seq<ClonePool.Event>) returns (pool: ClonePool.Pool)
      requires id in records && workers >= 1
      requires record.state.Cloning? && record.count >= 1 && |record.members| == record.count
      requires forall m <- record.members :: m.state.Pending? && !m.created
      modifies this`records, this`roots, this`registry
      ensures old(Valid() && PlanIsNew(records, id, record)) ==> Valid()
      ensures pool == Driven(record, old(roots), old(registry), workers, schedule)
      ensures records == old(records)[id := pool.persisted] && roots == pool.roots && registry == pool.registry
      ensures ClonePool.SamePlan(record, pool.record) && ClonePool.SamePlan(record, pool.persisted) && old(roots) <= roots
      ensures FullyRunning(pool.persisted) || FullyRunning(pool.record) ==>
                PlannedRoots(record) <= roots && AllBuilt(record, old(roots), old(registry), workers, schedule)
      ensures ClonePool.Finished(pool) && pool.failures == 0 ==> FullyRunning(pool.record)
      ensures roots <= old(roots) + PlannedRoots(record) && old(registry) <= registry <= old(registry) + PlannedIds(record)
    {
      pool := ClonePool.Exec(StartPool(record, roots, registry, workers), schedule);
      DrivenIsSound(record, roots, registry, workers, schedule);
      forall other <- records | old(Valid() && PlanIsNew(records, id, record)) && other != id
        ensures Sound(records[other], pool.roots, pool.registry, leaked)
      {
        SettledGrows(records[other], roots, registry, leaked, PlannedRoots(record), PlannedIds(record), pool.roots, pool.registry);
      }
      records, roots, registry := records[id := pool.persisted], pool.roots, pool.registry;
    }

    /** Clone once CLONING is recorded: the pool builds the set, which is then committed, left up or undone. */
    method Build(id: SetId, record: Record, workers: nat, schedule: seq<ClonePool.Event>, puts: seq<bool>, env: Weather)
      returns (outcome: Outcome)
      requires id in records && |puts| == 3 && workers >= 1
      requires record.state.Cloning? && record.count >= 1 && |record.members| == record.count
      requires forall m <- record.members :: m.state.Pending? && !m.created
      modifies this
      ensures old(Valid() && PlanIsNew(records, id, record)) ==> Valid()
      ensures id in records && outcome == OutcomeOf(Driven(record, old(roots), old(registry), workers, schedule), puts, env)
      ensures outcome.Built? ==> records[id].state.Committed? && FullyRunning(records[id]) && PlannedRoots(record) <= roots
      // A set that is or would be committed was built, every member of it.
      ensures outcome.Built? || outcome.LeftUp? || (outcome.Died? && FullyRunning(records[id])) ==>
                AllBuilt(record, old(roots), old(registry), workers, schedule)
      ensures outcome.Reversed? ==> && records[id].state.RolledBack? && MemberRoots(record) !! roots
                                    && LeavesEarlier(old(roots), record, roots)
      ensures (outcome.Died? || outcome.LeftUp?) && FullyRunning(records[id]) ==> PlannedRoots(record) <= roots
      ensures record.sourceRoot in old(roots) ==> record.sourceRoot in roots
      ensures forall other <- old(records) | other != id :: other in records && records[other] == old(records)[other]
      ensures CloneFrame(record, old(roots), old(registry), roots, registry)
      // Nothing is taken away unless the set is undone; then all it registered goes, unless its delete failed.
      ensures outcome.Built? || outcome.LeftUp? || outcome.Died? ==>
                var pool := Driven(record, old(roots), old(registry), workers, schedule);
                roots == pool.roots && registry == pool.registry && old(roots) <= roots
      ensures outcome.Reversed? ==>
                var pool := Driven(record, old(roots), old(registry), workers, schedule);
                registry == old(registry) + (CreatedIds(pool.record) - env.deletes)
    {
      var pool := RunPool(id, record, workers, schedule);
      DrivenFlags(record, old(roots), old(registry), workers, schedule);
      if !(forall w <- pool.workers :: w.Gone?) { return Died; }
      var running := IsFullyRunning(pool.record);
      if pool.failures > 0 && !running {
        outcome := UndoBuilt(id, record, pool, old(roots), old(registry), env);
        return;
      }
      SamePlanRoots(record, pool.record);
      var ok := pool.failures == 0;
      if ok { ok := Commit(id, pool.record, puts); }
      return if ok then Built else LeftUp;
    }

    /** The deferred rollback of a Clone whose pool failed. */
    method UndoBuilt(id: SetId, record: Record, pool: ClonePool.Pool, ghost roots0: set<Root>, ghost registry0: set<WorkloadId>, env: Weather)
      returns (outcome: Outcome)
      requires id in records && ClonePool.SamePlan(record, pool.record) && roots == pool.roots && registry == pool.registry
      requires roots0 <= pool.roots <= roots0 + PlannedRoots(record)
      requires CreatedIds(pool.record) !! registry0 && pool.registry == registry0 + CreatedIds(pool.record)
      requires pool.registry <= registry0 + PlannedIds(record)
      modifies this
      ensures (old(Valid()) ==> Valid()) && id in records
      ensures outcome == if Undoes(pool.record, env) then Reversed else Stuck
      ensures outcome.Reversed? ==> && records[id].state.RolledBack? && MemberRoots(record) !! roots
                                    && LeavesEarlier(roots0, record, roots)
                                    && registry == registry0 + (CreatedIds(pool.record) - env.deletes)
      ensures forall other <- old(records) | other != id :: other in records && records[other] == old(records)[other]
      ensures CloneFrame(record, roots0, registry0, roots, registry)
      ensures record.sourceRoot in roots0 ==> record.sourceRoot in roots
    {
      SamePlanRoots(record, pool.record);
      SamePlanAs(record, record);
      ReversedLeavesEarlier(roots0, roots, record, pool.record);
      UndoneRegistry(pool, registry0, env.deletes);
      var ok := Rollback(id, pool.record, env);
      UndoneFrame(record, pool, roots0, registry0, env.deletes, roots, registry);
      return if ok then Reversed else Stuck;
    }

    /**
     Clone: the plan is stored before anything is touched, the pool builds it, and the set is committed or
     undone. A schedule that ends before every worker is gone is a crash of the agent at that point.
     */
    method Clone(id: SetId, plan: Record, firstOk: bool, staged: bool, cloningOk: bool, workers: nat,
                 schedule: seq<ClonePool.Event>, puts: seq<bool>, env: Weather) returns (outcome: Outcome)
      requires id !in records && |puts| == 3 && workers >= 1
      requires plan.state.Preparing? && plan.count >= 1 && |plan.members| == plan.count
      requires forall m <- plan.members :: m.state.Pending? && !m.created
      modifies this
      // Other sets stay as their records say, unless the plan names a root or a workload of theirs.
      ensures old(Valid() && PlanIsNew(records, id, plan)) ==> Valid()
      // Which way it goes, exactly.
      ensures outcome.Refused? <==> !firstOk
      ensures firstOk && !(staged && cloningOk) ==> outcome == if Undoes(plan, env) then Reversed else Stuck
      ensures firstOk && staged && cloningOk ==>
                outcome == OutcomeOf(Driven(plan.(state := Cloning), old(roots), old(registry), workers, schedule), puts, env)
      ensures outcome.Refused? ==> records == old(records) && roots == old(roots) && registry == old(registry)
      // Whatever happens: other sets' records, earlier workloads and all but member roots stay.
      ensures forall other <- old(records) :: other in records && records[other] == old(records)[other]
      ensures CloneFrame(plan, old(roots), old(registry), roots, registry)
      ensures outcome.Built? || outcome.LeftUp? || outcome.Died? ==> old(roots) <= roots
      // A reversed clone has deleted every workload it registered, unless the delete failed.
      ensures outcome.Reversed? ==> registry <= old(registry) + (PlannedIds(plan) - env.deletes)
      ensures outcome.Reversed? && staged && cloningOk ==>
                registry == old(registry) + (CreatedIds(Driven(plan.(state := Cloning), old(roots), old(registry), workers, schedule).record) - env.deletes)
      ensures outcome.Built? ==> && id in records && records[id].state.Committed? && FullyRunning(records[id])
                                 && PlannedRoots(plan) <= roots
      ensures outcome.Reversed? ==> id in records && records[id].state.RolledBack? && PlannedRoots(plan) - {plan.sourceRoot} !! roots
      // A reversed clone leaves every earlier root in place if and only if no member root was there before it.
      ensures outcome.Reversed? ==> LeavesEarlier(old(roots), plan, roots)
      ensures !outcome.Refused? ==> id in records
      ensures (outcome.Died? || outcome.LeftUp?) && FullyRunning(records[id]) ==> PlannedRoots(plan) <= roots
      // A set that is or would be committed was built: every member copied to a free root, registered and its process restored.
      ensures outcome.Built? || outcome.LeftUp? || (outcome.Died? && FullyRunning(records[id])) ==>
                AllBuilt(plan.(state := Cloning), old(roots), old(registry), workers, schedule)
      ensures plan.sourceRoot in old(roots) ==> plan.sourceRoot in roots
    {
      if !firstOk { return Refused; }
      records := records[id := plan];
      var record := plan.(state := Cloning);
      SamePlanAs(plan, record);
      if staged && cloningOk {
        outcome := Build(id, record, workers, schedule, puts, env);
        return;
      }
      ReversedLeavesEarlier(roots, roots, plan, plan);
      if staged { ReversedLeavesEarlier(roots, roots, plan, record); }
      var ok := Rollback(id, if staged then record else plan, env);
      return if ok then Reversed else Stuck;
    }

    ghost function View(): World
      reads this
    {
      World(records, roots, registry, leaked)
    }

    /** One record of Recover: an unfinished set is committed if all members run, rolled back otherwise. */
    method RecoverOne(id: SetId, env: Weather, puts: seq<bool>) returns (ok: bool)
      requires Valid() && id in records && |puts| == 3
      modifies this
      ensures Valid() && (ok <==> Recovers(old(records)[id], env, puts))
      ensures Recovered(old(View()), View(), id, env, ok)
      ensures leaked <= old(leaked) + (CreatedIds(old(records)[id]) - env.deletes)
    {
      var record := records[id];
      var running := IsFullyRunning(record);
      if record.state.Cloning? && running {
        ok := Commit(id, record, puts);
      } else if record.state.Committed? || record.state.RolledBack? {
        ok := true;
      } else {
        ok := Rollback(id, record, env);
      }
    }

    /**
     Recover: every stored set is attempted once, one stuck set does not stop the rest. Without an error every set is
     settled: committed with all members recorded RUNNING exactly if it was, or all its members were running, and
     otherwise rolled back. What is lost belongs to a set that had to be undone, so no set's own source root; and without
     an error exactly those member roots are gone, and exactly the flagged workloads whose delete worked.
     */
    method Recover(order: seq<SetId>, envs: map<SetId, Weather>, puts: map<SetId, seq<bool>>) returns (problems: set<SetId>)
      requires Valid()
      requires (set id | id in order) == records.Keys && forall i, j | 0 <= i < j < |order| :: order[i] != order[j]
      requires envs.Keys == records.Keys == puts.Keys && forall id <- puts :: |puts[id]| == 3
      modifies this
      ensures Valid() && records.Keys == old(records).Keys
      ensures problems <= records.Keys && forall id <- records :: id in problems <==> !Recovers(old(records)[id], envs[id], puts[id])
      ensures forall id <- records | id !in problems :: SettledAs(old(records)[id], View(), id)
      ensures Lost(old(View()), View(), envs, old(records).Keys, problems == {})
      ensures forall id <- old(records) | old(records)[id].sourceRoot in old(roots) && old(records)[id].sourceRoot !in roots ::
                RootGoes(old(records), old(records).Keys - {id}, old(records)[id].sourceRoot)
    {
      problems := RecoverEach(order, envs, puts);
      forall id <- old(records) | old(records)[id].sourceRoot in old(roots) && old(records)[id].sourceRoot !in roots
        ensures RootGoes(old(records), old(records).Keys - {id}, old(records)[id].sourceRoot)
      {
        SourceIsOwn(old(records), id);
      }
    }

    /** The loop of Recover. */
    method RecoverEach(order: seq<SetId>, envs: map<SetId, Weather>, puts: map<SetId, seq<bool>>) returns (problems: set<SetId>)
      requires Valid()
      requires (set id | id in order) == records.Keys && forall i, j | 0 <= i < j < |order| :: order[i] != order[j]
      requires envs.Keys == records.Keys == puts.Keys && forall id <- puts :: |puts[id]| == 3
      modifies this
      ensures Valid() && Progress(old(View()), View(), envs, puts, old(records).Keys, problems)
    {
      problems := {};
      for i := 0 to |order|
        invariant Valid() && Progress(old(View()), View(), envs, puts, Attempted(order, i), problems)
      {
        AttemptedOnce(order, i, old(records).Keys);
        var id := order[i];
        ghost var before := View();
        var ok := RecoverOne(id, envs[id], puts[id]);
        ProgressMore(old(View()), before, View(), envs, puts, Attempted(order, i), problems, id, ok);
        if !ok { problems := problems + {id}; }
      }
      AttemptedOnce(order, |order|, old(records).Keys);
    }
  }
}
