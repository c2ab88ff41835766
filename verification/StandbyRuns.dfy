/**
 Every interleaving of the standby's locked blocks, internal/agent/standby.go: peer callbacks, the
 automatic death watch, and operator triggers. An actor is one pass of considerFailover or one operator
 trigger; between its locked blocks any other actor may run, and the restore itself holds no lock.
 */
module StandbyRuns {
  import opened Wrappers
  import opened Standby

  type Actor = nat

  /** Where an actor stands in considerFailover or failover. */
  datatype Pc =
    | Idle
    | Sustained(w: Workload)            // recordDeathSample reported the target
    | Owned(w: Workload)                // ownership acquired
    | Fenced(w: Workload)               // a positive fence result
    | FenceStored(w: Workload)          // markOwnershipFenced succeeded
    | Commanded(w: Workload)            // an operator trigger
    | Claiming(w: Workload)             // beginFailover claimed the workload
    | Restoring(w: Workload)            // the restore runs, no lock held
    | Restored(w: Workload)             // the restore returned, or the workload already ran here
    | Leaving(w: Workload)              // markFailedOver or an error is behind; endFailover is next

  datatype Event =
    | Held(session: Session, now: Time, lookupOk: bool, putOk: bool)
    | Withdrawn(caller: Machine, w: Workload, lookupOk: bool, deleteOk: bool)
    | Observe(a: Actor, w: Workload, sight: Sighting)
    | Acquire(a: Actor, ok: bool)
    | Fence(a: Actor, positive: bool, epoch: nat, token: string, result: string, lookupOk: bool, putOk: bool)
    | StoreFence(a: Actor, ok: bool)
    | Failure(w: Workload, cause: string, now: Time, lookupOk: bool, putOk: bool)
    | Trigger(a: Actor, w: Workload)
    | BeginRestore(a: Actor, wanted: Option<Checkpoint>, lookupOk: bool)
    | StartRestore(a: Actor, ok: bool)
    | AlreadyRunning(a: Actor)
    | FinishRestore(a: Actor, ok: bool)
    | Mark(a: Actor, restoreID: string, reason: string, now: Time, lookupOk: bool, putOk: bool)
    | EndRestore(a: Actor)
    | Restart

  datatype System = System(store: Store, pcs: map<Actor, Pc>)

  function PcOf(s: System, a: Actor): Pc {
    if a in s.pcs then s.pcs[a] else Idle
  }

  /** The actor that takes the step, if it is an actor's. */
  function ActorOf(e: Event): Option<Actor> {
    if e.Held? || e.Withdrawn? || e.Failure? || e.Restart? then None else Some(e.a)
  }

  /** The locked block an event runs on the store; an event whose actor is elsewhere does nothing. */
  function StoreStep(store: Store, pc: Pc, e: Event): Store {
    match e
    case Held(session, now, lookupOk, putOk) => Hold(store, session, now, lookupOk, putOk)
    case Withdrawn(caller, w, lookupOk, deleteOk) => Withdraw(store, caller, w, lookupOk, deleteOk)
    case Failure(w, cause, now, lookupOk, putOk) => Update(store, w, AttemptFailed(cause, now), lookupOk, putOk)
    case Observe(_, w, sight) => if pc.Idle? then Observed(store, w, sight) else store
    case Fence(_, _, epoch, token, result, lookupOk, putOk) =>
      if pc.Owned? then Update(store, pc.w, Evidence(epoch, token, result), lookupOk, putOk) else store
    case BeginRestore(_, wanted, lookupOk) =>
      if pc.FenceStored? || pc.Commanded? then AfterBegin(store, pc.w, wanted, lookupOk) else store
    case Mark(_, restoreID, reason, now, lookupOk, putOk) =>
      if pc.Restored? then Update(store, pc.w, Completed(restoreID, reason, now), lookupOk, putOk) else store
    case Restart => store.(samples := map[], running := {})
    case EndRestore(_) => if pc.Leaving? then store.(running := store.running - {pc.w}) else store
    case _ => store
  }

  /** Where the step takes its actor. */
  function NextPc(store: Store, pc: Pc, e: Event): Pc {
    match e
    case Observe(_, w, sight) =>
      if pc.Idle? && Classify(sight).Dead? && Samples(RecordDeath(store, w), w) >= DEATH_SAMPLE_TARGET then Sustained(w) else pc
    case Acquire(_, ok) => if !pc.Sustained? then pc else if ok then Owned(pc.w) else Idle
    case Fence(_, positive, _, _, _, _, _) => if !pc.Owned? then pc else if positive then Fenced(pc.w) else Idle
    case StoreFence(_, ok) => if !pc.Fenced? then pc else if ok then FenceStored(pc.w) else Idle
    case Trigger(_, w) => if pc.Idle? then Commanded(w) else pc
    case BeginRestore(_, wanted, lookupOk) =>
      if !pc.FenceStored? && !pc.Commanded? then pc
      else if Begin(store, pc.w, wanted, lookupOk).Claimed? then Claiming(pc.w)
      else Idle
    case StartRestore(_, ok) => if !pc.Claiming? then pc else if ok then Restoring(pc.w) else Leaving(pc.w)
    case AlreadyRunning(_) => if pc.Claiming? then Restored(pc.w) else pc
    case FinishRestore(_, ok) => if !pc.Restoring? then pc else if ok then Restored(pc.w) else Leaving(pc.w)
    case Mark(_, _, _, _, _, _) => if pc.Restored? then Leaving(pc.w) else pc
    case EndRestore(_) => if pc.Leaving? then Idle else pc
    case _ => pc
  }

  /** A restart of the agent ends every actor and forgets the two maps; the duty records are on disk. */
  function Step(s: System, e: Event): System {
    if e.Restart? then System(StoreStep(s.store, Idle, e), map[])
    else if ActorOf(e).None? then System(StoreStep(s.store, Idle, e), s.pcs)
    else
      var pc := PcOf(s, e.a);
      System(StoreStep(s.store, pc, e), s.pcs[e.a := NextPc(s.store, pc, e)])
  }

  const INITIAL := System(Store(map[], map[], {}), map[])

  /** The state after a whole history of events. */
  function After(run: seq<Event>): System {
    if run == [] then INITIAL else Step(After(run[..|run| - 1]), run[|run| - 1])
  }

  lemma AfterStep(run: seq<Event>, k: nat)
    requires k < |run|
    ensures After(run[..k + 1]) == Step(After(run[..k]), run[k])
  {
    assert run[..k + 1][..k] == run[..k];
  }

  // ---------------------------------------------------------------- duty records lose no updates

  /** What a failover writes once and for all. */
  ghost predicate SameHistory(d: Duty, e: Duty) {
    d.state == e.state && d.failoverAt == e.failoverAt && d.restoreID == e.restoreID && d.reason == e.reason
  }

  lemma StepKeepsHistory(store: Store, pc: Pc, e: Event, w: Workload)
    requires IsFailedOver(store, w)
    ensures IsFailedOver(StoreStep(store, pc, e), w)
    ensures SameHistory(store.duties[w], StoreStep(store, pc, e).duties[w])
  {
  }

  /** A failed-over duty is never deleted and its failover time, restore id and reason never change. */
  lemma {:induction false} FailedOverIsForever(run: seq<Event>, i: nat, j: nat, w: Workload)
    requires i <= j <= |run| && IsFailedOver(After(run[..i]).store, w)
    ensures IsFailedOver(After(run[..j]).store, w)
    ensures SameHistory(After(run[..i]).store.duties[w], After(run[..j]).store.duties[w])
    decreases j
  {
    if i < j {
      FailedOverIsForever(run, i, j - 1, w);
      AfterStep(run, j - 1);
      var (s, e) := (After(run[..j - 1]), run[j - 1]);
      StepKeepsHistory(s.store, if ActorOf(e).None? then Idle else PcOf(s, e.a), e, w);
    }
  }

  /** The event stores a hold of w: the record was readable, not failed over, and the write succeeded. */
  predicate StoresHold(s: System, e: Event, w: Workload) {
    e.Held? && e.session.workload == w && Accepts(s.store, e.session, e.lookupOk) && e.putOk
  }

  /** The checkpoint of the last hold of w that was durably stored. */
  function LastStoredHold(run: seq<Event>, w: Workload): Option<Checkpoint> {
    if run == [] then None
    else
      var e := run[|run| - 1];
      if StoresHold(After(run[..|run| - 1]), e, w) then e.session.checkpoint
      else LastStoredHold(run[..|run| - 1], w)
  }

  lemma DutyStep(s: System, e: Event, w: Workload)
    requires w in Step(s, e).store.duties
    ensures if StoresHold(s, e, w) then Step(s, e).store.duties[w].checkpoint == e.session.checkpoint
            else w in s.store.duties && Step(s, e).store.duties[w].checkpoint == s.store.duties[w].checkpoint
  {
  }

  /** Every stored duty names the checkpoint of the last persisted hold, whatever else was interleaved. */
  lemma {:induction false} DutyNamesLastHold(run: seq<Event>, w: Workload)
    ensures w in After(run).store.duties ==>
              LastStoredHold(run, w).Some? && After(run).store.duties[w].checkpoint == LastStoredHold(run, w)
  {
    if run != [] {
      DutyNamesLastHold(run[..|run| - 1], w);
      if w in After(run).store.duties { DutyStep(After(run[..|run| - 1]), run[|run| - 1], w); }
    }
  }

  // ---------------------------------------------------------------- single failover

  predicate Holds(pc: Pc, w: Workload) {
    (pc.Claiming? || pc.Restoring? || pc.Restored? || pc.Leaving?) && pc.w == w
  }

  /** Some actor holds the workload. */
  ghost predicate Claimed(s: System, w: Workload) {
    exists a :: a in s.pcs && Holds(s.pcs[a], w)
  }

  /** The claim set is exactly the workloads some actor holds, one actor each, and an unmarked claim is on an armed duty. */
  ghost predicate Claims(s: System) {
    && (forall a, w | a in s.pcs && Holds(s.pcs[a], w) :: w in s.store.running)
    && (forall w | w in s.store.running :: Claimed(s, w))
    && (forall a, b, w | a in s.pcs && b in s.pcs && Holds(s.pcs[a], w) && Holds(s.pcs[b], w) :: a == b)
    && (forall a | a in s.pcs && (s.pcs[a].Claiming? || s.pcs[a].Restoring? || s.pcs[a].Restored?) ::
          !IsFailedOver(s.store, s.pcs[a].w))
  }

  /** What a step may do to the claims on w, seen from its actor's positions before and after. */
  ghost predicate ClaimMove(store: Store, after: Store, p: Pc, q: Pc, w: Workload) {
    && (w in store.running && w !in after.running ==> p == Leaving(w) && q.Idle?)
    && (w !in store.running && w in after.running ==> q == Claiming(w))
    && (!IsFailedOver(store, w) && IsFailedOver(after, w) ==> p == Restored(w) && q == Leaving(w))
    && (Holds(q, w) && !Holds(p, w) ==> w !in store.running && w in after.running && !IsFailedOver(after, w) && q.Claiming?)
    && (Holds(q, w) && Holds(p, w) && !q.Leaving? ==> !p.Leaving?)
    && (Holds(p, w) && !Holds(q, w) ==> w !in after.running)
  }

  lemma StepMovesClaims(store: Store, pc: Pc, e: Event, w: Workload)
    requires !e.Restart?
    ensures ClaimMove(store, StoreStep(store, pc, e), pc, if ActorOf(e).None? then pc else NextPc(store, pc, e), w)
  {
  }

  lemma ClaimsMoved(s: System, t: System, a: Actor, p: Pc, q: Pc)
    requires Claims(s) && p == PcOf(s, a) && q == PcOf(t, a)
    requires forall b | b != a :: PcOf(t, b) == PcOf(s, b)
    requires forall w :: ClaimMove(s.store, t.store, p, q, w)
    ensures Claims(t)
  {
    forall b, w | b in t.pcs && Holds(t.pcs[b], w) ensures w in t.store.running {
      assert ClaimMove(s.store, t.store, p, q, w);
      assert PcOf(t, b) == t.pcs[b];
      if b != a { assert PcOf(s, b) == s.pcs[b]; }
    }
    forall w | w in t.store.running ensures Claimed(t, w) {
      assert ClaimMove(s.store, t.store, p, q, w);
      if w in s.store.running {
        var b :| b in s.pcs && Holds(s.pcs[b], w);
        assert PcOf(s, b) == s.pcs[b];
        assert Holds(PcOf(t, b), w);
        assert b in t.pcs && Holds(t.pcs[b], w);
      } else {
        assert a in t.pcs && Holds(t.pcs[a], w);
      }
    }
    forall b, c, w | b in t.pcs && c in t.pcs && Holds(t.pcs[b], w) && Holds(t.pcs[c], w) ensures b == c {
      assert ClaimMove(s.store, t.store, p, q, w);
      assert PcOf(t, b) == t.pcs[b] && PcOf(t, c) == t.pcs[c];
    }
    forall b | b in t.pcs && (t.pcs[b].Claiming? || t.pcs[b].Restoring? || t.pcs[b].Restored?)
      ensures !IsFailedOver(t.store, t.pcs[b].w)
    {
      var w := t.pcs[b].w;
      assert ClaimMove(s.store, t.store, p, q, w);
      assert PcOf(t, b) == t.pcs[b] && Holds(t.pcs[b], w);
    }
  }

  lemma ClaimsStep(s: System, e: Event)
    requires Claims(s)
    ensures Claims(Step(s, e))
  {
    var t := Step(s, e);
    if e.Restart? {
    } else if ActorOf(e).None? {
      forall w ensures ClaimMove(s.store, t.store, Idle, Idle, w) { StepMovesClaims(s.store, Idle, e, w); }
      ClaimsKeptByPeers(s, t);
    } else {
      var p, q := PcOf(s, e.a), NextPc(s.store, PcOf(s, e.a), e);
      forall w ensures ClaimMove(s.store, t.store, p, q, w) { StepMovesClaims(s.store, p, e, w); }
      ClaimsMoved(s, t, e.a, p, q);
    }
  }

  lemma ClaimsKeptByPeers(s: System, t: System)
    requires Claims(s) && s.pcs == t.pcs
    requires forall w :: ClaimMove(s.store, t.store, Idle, Idle, w)
    ensures Claims(t)
  {
    forall a, w | a in t.pcs && Holds(t.pcs[a], w) ensures w in t.store.running { assert ClaimMove(s.store, t.store, Idle, Idle, w); }
    forall w | w in t.store.running ensures Claimed(t, w) {
      assert ClaimMove(s.store, t.store, Idle, Idle, w);
      var a :| a in s.pcs && Holds(s.pcs[a], w);
      assert a in t.pcs && Holds(t.pcs[a], w);
    }
    forall a | a in t.pcs && (t.pcs[a].Claiming? || t.pcs[a].Restoring? || t.pcs[a].Restored?)
      ensures !IsFailedOver(t.store, t.pcs[a].w)
    {
      assert ClaimMove(s.store, t.store, Idle, Idle, t.pcs[a].w);
    }
  }

  lemma {:induction false} ClaimsAlways(run: seq<Event>)
    ensures Claims(After(run))
  {
    if run != [] {
      ClaimsAlways(run[..|run| - 1]);
      ClaimsStep(After(run[..|run| - 1]), run[|run| - 1]);
    }
  }

  /** At most one restore of a workload runs at any time. */
  lemma SingleRestore(run: seq<Event>, a: Actor, b: Actor)
    requires PcOf(After(run), a).Restoring? && PcOf(After(run), b).Restoring?
    requires PcOf(After(run), a).w == PcOf(After(run), b).w
    ensures a == b
  {
    ClaimsAlways(run);
    assert Holds(After(run).pcs[a], PcOf(After(run), a).w) && Holds(After(run).pcs[b], PcOf(After(run), b).w);
  }

  /** Once the failed-over state is persisted no later restore of that workload starts. */
  lemma NoRestoreAfterFailover(run: seq<Event>, i: nat, j: nat, w: Workload)
    requires i <= j < |run| && IsFailedOver(After(run[..i]).store, w)
    requires run[j].StartRestore? && run[j].ok && PcOf(After(run[..j]), run[j].a).Claiming?
    ensures PcOf(After(run[..j]), run[j].a).w != w
  {
    FailedOverIsForever(run, i, j, w);
    ClaimsAlways(run[..j]);
  }

  // ---------------------------------------------------------------- the death watch

  /** The event forgets what was observed of w: a sign of life, a withdrawal that took effect, a restart. */
  predicate Resets(s: System, e: Event, w: Workload) {
    || e.Restart?
    || (e.Observe? && e.w == w && SignOfLife(e.sight) && PcOf(s, e.a).Idle?)
    || (e.Withdrawn? && e.w == w && Withdraws(s.store, e.caller, w, e.lookupOk) && e.deleteOk)
  }

  predicate Counts(s: System, e: Event, w: Workload) {
    e.Observe? && e.w == w && PlaneSaysGone(e.sight) && ListenerSilent(e.sight) && PcOf(s, e.a).Idle?
  }

  /** Observations of w with both signals of death since the last reset, in any number. */
  function DeadSince(run: seq<Event>, w: Workload): nat {
    if run == [] then 0
    else
      var (s, e) := (After(run[..|run| - 1]), run[|run| - 1]);
      var before := DeadSince(run[..|run| - 1], w);
      if Resets(s, e, w) then 0 else if Counts(s, e, w) then before + 1 else before
  }

  lemma SamplesStep(s: System, e: Event, w: Workload)
    ensures var (n, m) := (Samples(s.store, w), Samples(Step(s, e).store, w));
            if Resets(s, e, w) then m == 0
            else if Counts(s, e, w) then m == if n < DEATH_SAMPLE_TARGET then n + 1 else n
            else m == n
  {
  }

  /** The saturating counter is the capped number of dead observations since the last contrary one. */
  lemma {:induction false} CounterRefinesTrace(run: seq<Event>, w: Workload)
    ensures var n := DeadSince(run, w);
            Samples(After(run).store, w) == if n < DEATH_SAMPLE_TARGET then n else DEATH_SAMPLE_TARGET
  {
    if run != [] {
      CounterRefinesTrace(run[..|run| - 1], w);
      SamplesStep(After(run[..|run| - 1]), run[|run| - 1], w);
    }
  }

  /** Where actor a stands after the first m events. */
  function PosAt(run: seq<Event>, a: Actor, m: nat): Pc
    requires m <= |run|
  {
    PcOf(After(run[..m]), a)
  }

  /** Actor a entered the position by event i and has stood there without a break until after event j - 1. */
  ghost predicate Stands(run: seq<Event>, a: Actor, pc: Pc, i: nat, j: nat) {
    && i < j <= |run| && PosAt(run, a, i) != pc
    && forall m | i < m <= j :: PosAt(run, a, m) == pc
  }

  /** At index i idle actor a saw both signals of w's death for at least the third time since the last reset. */
  ghost predicate SustainedAt(run: seq<Event>, a: Actor, w: Workload, i: nat) {
    && i < |run| && Counts(After(run[..i]), run[i], w) && run[i].a == a
    && DeadSince(run[..i + 1], w) >= DEATH_SAMPLE_TARGET
  }

  /**
   One pass of actor a over w: the sustained observation at i, ownership acquired at j, a positive fence at k, the
   fence persisted at l. The actor stands in each position for w, and in nothing else, from one to the next.
   */
  ghost predicate Justified(run: seq<Event>, a: Actor, w: Workload, i: nat, j: nat, k: nat, l: nat, n: nat) {
    && i < j < k < l < n <= |run|
    && SustainedAt(run, a, w, i) && Stands(run, a, Sustained(w), i, j)
    && run[j] == Acquire(a, true) && Stands(run, a, Owned(w), j, k)
    && run[k].Fence? && run[k].a == a && run[k].positive && Stands(run, a, Fenced(w), k, l)
    && run[l] == StoreFence(a, true) && Stands(run, a, FenceStored(w), l, n)
  }

  /** The moves that lead to a restore. */
  ghost predicate Moves(e: Event, a: Actor, before: Pc, now: Pc) {
    match now
    case Sustained(w) => e.Observe? && e.a == a && e.w == w && Classify(e.sight).Dead? && before.Idle?
    case Owned(w) => e == Acquire(a, true) && before == Sustained(w)
    case Fenced(w) => e.Fence? && e.a == a && e.positive && before == Owned(w)
    case FenceStored(w) => e == StoreFence(a, true) && before == Fenced(w)
    case Commanded(w) => e == Trigger(a, w) && before.Idle?
    case Claiming(w) => e.BeginRestore? && e.a == a && (before == FenceStored(w) || before == Commanded(w))
    case Restoring(w) => e == StartRestore(a, true) && before == Claiming(w)
    case Restored(w) => (e == FinishRestore(a, true) && before == Restoring(w)) || (e == AlreadyRunning(a) && before == Claiming(w))
    case Leaving(w) =>
      || (e == StartRestore(a, false) && before == Claiming(w))
      || (e == FinishRestore(a, false) && before == Restoring(w))
      || (e.Mark? && e.a == a && before == Restored(w))
    case Idle => true
  }

  lemma StepMoves(s: System, e: Event, a: Actor)
    ensures PcOf(Step(s, e), a) == PcOf(s, a) || Moves(e, a, PcOf(s, a), PcOf(Step(s, e), a))
    ensures PcOf(Step(s, e), a).Sustained? && !PcOf(s, a).Sustained? ==> e.Observe? && Samples(Step(s, e).store, e.w) >= DEATH_SAMPLE_TARGET
  {
  }

  /** The last of n events kept the actor where it was or moved it as events do. */
  lemma LastMove(run: seq<Event>, a: Actor, n: nat)
    requires 0 < n <= |run|
    ensures PosAt(run, a, n) == PosAt(run, a, n - 1) || Moves(run[n - 1], a, PosAt(run, a, n - 1), PosAt(run, a, n))
  {
    AfterStep(run, n - 1);
    StepMoves(After(run[..n - 1]), run[n - 1], a);
  }

  lemma NobodyMovedYet(run: seq<Event>, a: Actor)
    ensures PosAt(run, a, 0).Idle?
  {
    assert run[..0] == [];
  }

  /** Back to where an actor entered the position it stands in. */
  lemma {:induction false} WalkBack(run: seq<Event>, a: Actor, n: nat) returns (i: nat)
    requires n <= |run| && !PosAt(run, a, n).Idle?
    ensures i < n && Stands(run, a, PosAt(run, a, n), i, n)
    ensures Moves(run[i], a, PosAt(run, a, i), PosAt(run, a, n))
    decreases n
  {
    NobodyMovedYet(run, a);
    LastMove(run, a, n);
    i := n - 1;
    if PosAt(run, a, n - 1) == PosAt(run, a, n) {
      i := WalkBack(run, a, n - 1);
    }
  }

  /** The step that makes a death sustained is a counted observation, at least the third since the last reset. */
  lemma EntersSustained(run: seq<Event>, a: Actor, w: Workload, i: nat)
    requires i < |run| && PosAt(run, a, i) != Sustained(w) && PosAt(run, a, i + 1) == Sustained(w)
    requires Moves(run[i], a, PosAt(run, a, i), Sustained(w))
    ensures SustainedAt(run, a, w, i)
  {
    AfterStep(run, i);
    StepMoves(After(run[..i]), run[i], a);
    TwoSignals(run[i].sight);
    CounterRefinesTrace(run[..i + 1], w);
  }

  /**
   Every automatic failover of w was preceded, in this order and within one pass of the same actor over w, by a third
   sustained death observation of w, its ownership lease, a positive fence, and the fence persisted.
   */
  lemma AutomaticFailoverIsJustified(run: seq<Event>, n: nat, a: Actor)
    requires n <= |run| && PosAt(run, a, n).FenceStored?
    ensures exists i, j, k, l :: Justified(run, a, PosAt(run, a, n).w, i, j, k, l, n)
  {
    var w := PosAt(run, a, n).w;
    var l := WalkBack(run, a, n);
    var k := WalkBack(run, a, l);
    var j := WalkBack(run, a, k);
    var i := WalkBack(run, a, j);
    EntersSustained(run, a, w, i);
    assert Justified(run, a, w, i, j, k, l, n);
  }

  /**
   Every restore that runs was claimed by an operator's trigger of that workload, or by a pass that had owned and
   fenced that very workload.
   */
  lemma RestoreIsJustified(run: seq<Event>, n: nat, a: Actor, w: Workload) returns (m: nat, t: nat)
    requires n <= |run| && PosAt(run, a, n) == Restoring(w)
    ensures m < n && run[m].BeginRestore? && run[m].a == a && PosAt(run, a, m + 1) == Claiming(w)
    ensures || (t < m && run[t] == Trigger(a, w) && Stands(run, a, Commanded(w), t, m))
            || exists i, j, k, l :: Justified(run, a, w, i, j, k, l, m)
  {
    var started := WalkBack(run, a, n);
    m := WalkBack(run, a, started);
    t := m;
    if PosAt(run, a, m) == Commanded(w) {
      t := WalkBack(run, a, m);
    } else {
      AutomaticFailoverIsJustified(run, m, a);
    }
  }

  /** A workload is marked failed over only by an actor that restored it, or found it running here, and has not left it since. */
  lemma FailoverIsEarned(run: seq<Event>, j: nat, w: Workload) returns (m: nat)
    requires j < |run| && !IsFailedOver(After(run[..j]).store, w) && IsFailedOver(After(run[..j + 1]).store, w)
    ensures m < j && run[j].Mark? && Stands(run, run[j].a, Restored(w), m, j)
    ensures run[m] == FinishRestore(run[j].a, true) || run[m] == AlreadyRunning(run[j].a)
  {
    AfterStep(run, j);
    OnlyMarkFailsOver(After(run[..j]), run[j], w);
    m := WalkBack(run, run[j].a, j);
  }

  lemma OnlyMarkFailsOver(s: System, e: Event, w: Workload)
    requires !IsFailedOver(s.store, w) && IsFailedOver(Step(s, e).store, w)
    ensures e.Mark? && PcOf(s, e.a) == Restored(w)
  {
  }

  /** The evidence of a fence is on the duty whichever way the attempt ends, if the record can be read and written. */
  lemma EvidenceIsKept(s: System, e: Event)
    requires e.Fence? && PcOf(s, e.a).Owned? && e.lookupOk && e.putOk && PcOf(s, e.a).w in s.store.duties
    ensures var (w, t) := (PcOf(s, e.a).w, Step(s, e).store);
            && w in t.duties && t.duties[w].epoch == e.epoch && t.duties[w].token == e.token && t.duties[w].fenceResult == e.result
            && (PcOf(Step(s, e), e.a) == if e.positive then Fenced(w) else Idle)
  {
  }
}
