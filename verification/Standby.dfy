/**
 The receiving half of warm-standby failover, internal/agent/standby.go.

 Every block the source runs under the supervisor's mutex is one atomic step on a Store. The class
 StandbySupervisor carries the source's fields and its methods; each is proved equal to a function on
 Store. StandbyRuns interleaves those functions in every order.
 */
module Standby {
  import opened Wrappers

  type Workload = nat
  type Machine = nat
  type Checkpoint = nat
  type Time = nat

  datatype DutyState = Armed | FailedOver

  datatype Duty = Duty(
    state: DutyState, source: Machine, agentURL: string, keepLast: nat, checkpoint: Option<Checkpoint>, heldAt: Time,
    failoverAt: Time, restoreID: string, reason: string,
    lastError: string, nextAttemptAt: Time,
    epoch: nat, token: string, fenceResult: string)

  datatype SessionState = Verified | Held | Failed

  datatype Session = Session(
    replication: bool, state: SessionState, source: Machine, workload: Workload, checkpoint: Option<Checkpoint>,
    agentURL: string, keepLast: nat)

  /** The duty collection and the two maps the mutex guards. A workload without samples counts zero. */
  datatype Store = Store(duties: map<Workload, Duty>, samples: map<Workload, nat>, running: set<Workload>)

  const DEATH_SAMPLE_TARGET: nat := 3
  const RETRY_DELAY: nat := 60

  function Samples(s: Store, w: Workload): nat {
    if w in s.samples then s.samples[w] else 0
  }

  predicate IsFailedOver(s: Store, w: Workload) {
    w in s.duties && s.duties[w].state.FailedOver?
  }

  // ---------------------------------------------------------------- the locked blocks, as functions

  /** The hold reaches the duty record: a held replication session, readable record, not failed over. */
  predicate Accepts(s: Store, session: Session, lookupOk: bool) {
    session.replication && session.state.Held? && session.checkpoint.Some? && lookupOk && !IsFailedOver(s, session.workload)
  }

  function HeldDuty(s: Store, session: Session, now: Time): Duty {
    var w := session.workload;
    var base := if w in s.duties then s.duties[w]
                else Duty(Armed, 0, "", 0, None, now, 0, "", "", "", 0, 0, "", "");
    base.(source := session.source, agentURL := session.agentURL, keepLast := session.keepLast,
          checkpoint := session.checkpoint)
  }

  function Hold(s: Store, session: Session, now: Time, lookupOk: bool, putOk: bool): Store {
    if Accepts(s, session, lookupOk) && putOk
    then s.(duties := s.duties[session.workload := HeldDuty(s, session, now)])
    else s
  }

  /** The stored session after the hold callback: degraded when the duty could not be written. */
  function SessionAfterHold(s: Store, session: Session, lookupOk: bool, putOk: bool, degradeOk: bool): SessionState {
    if Accepts(s, session, lookupOk) && !putOk && degradeOk then Failed else session.state
  }

  /** The withdrawal is honoured: the recorded source asks, and the duty is still armed. */
  predicate Withdraws(s: Store, caller: Machine, w: Workload, lookupOk: bool) {
    lookupOk && w in s.duties && s.duties[w].source == caller && s.duties[w].state.Armed?
  }

  function Withdraw(s: Store, caller: Machine, w: Workload, lookupOk: bool, deleteOk: bool): Store {
    if Withdraws(s, caller, w, lookupOk) && deleteOk
    then s.(duties := s.duties - {w}, samples := s.samples - {w})
    else s
  }

  function RecordDeath(s: Store, w: Workload): Store {
    s.(samples := s.samples[w := if Samples(s, w) < DEATH_SAMPLE_TARGET then Samples(s, w) + 1 else Samples(s, w)])
  }

  function ClearDeath(s: Store, w: Workload): Store {
    s.(samples := s.samples - {w})
  }

  // ---------------------------------------------------------------- the two-signal rule

  /** The control plane's machine record: announced offline, and when it was last heard of. */
  datatype Presence = Presence(offline: bool, lastSeen: Option<Time>)

  /** The probe of the source's own peer listener: it could not be made, was answered, or was not. */
  datatype Probe = CannotRun | Answers | Silent

  /** What one pass gathers about the source of one duty. */
  datatype Sighting = Sighting(record: Option<Presence>, now: Time, agentURL: string, probe: Probe)

  datatype Observation = Dead | Contrary | Inconclusive

  const PRESENCE_STALE_AFTER: nat := 90

  predicate PresenceOffline(p: Presence, now: Time) {
    p.offline || (p.lastSeen.Some? && now > p.lastSeen.value + PRESENCE_STALE_AFTER)
  }

  function Classify(sight: Sighting): Observation {
    if sight.record.None? then Inconclusive
    else if !PresenceOffline(sight.record.value, sight.now) then Contrary
    else if sight.agentURL == "" then Inconclusive
    else match sight.probe
      case CannotRun => Inconclusive
      case Answers => Contrary
      case Silent => Dead
  }

  /** The first signal: the control plane holds a record, and it is offline or stale. */
  predicate PlaneSaysGone(sight: Sighting) {
    sight.record.Some? && PresenceOffline(sight.record.value, sight.now)
  }

  /** The second signal: the source's listener could be probed and did not answer. */
  predicate ListenerSilent(sight: Sighting) {
    sight.agentURL != "" && sight.probe.Silent?
  }

  /** Evidence of life: a current heartbeat, or an answer from the listener of a source the plane thinks gone. */
  predicate SignOfLife(sight: Sighting) {
    && sight.record.Some?
    && (!PlaneSaysGone(sight) || (sight.agentURL != "" && sight.probe.Answers?))
  }

  /** Death takes both signals; a sign of life contradicts it; anything missing on this side decides nothing. */
  lemma TwoSignals(sight: Sighting)
    // Gone is announced offline, or last heard of more than ninety seconds ago; never heard of is neither.
    ensures PlaneSaysGone(sight) <==>
              && sight.record.Some?
              && (sight.record.value.offline || exists seen :: sight.record.value.lastSeen == Some(seen) && sight.now - seen > 90)
    ensures Classify(sight).Dead? <==> PlaneSaysGone(sight) && ListenerSilent(sight)
    ensures Classify(sight).Contrary? <==> SignOfLife(sight)
    ensures Classify(sight).Inconclusive? <==>
              sight.record.None? || (PlaneSaysGone(sight) && (sight.agentURL == "" || sight.probe.CannotRun?))
  {
  }

  /** What one observation does to the counter of its workload. */
  function Observed(s: Store, w: Workload, sight: Sighting): Store {
    match Classify(sight)
    case Dead => RecordDeath(s, w)
    case Contrary => ClearDeath(s, w)
    case Inconclusive => s
  }

  // ---------------------------------------------------------------- duty records

  /** updateDutyLocked: the mutation is applied to the freshly read record, or not at all. */
  function Update(s: Store, w: Workload, mutate: Duty -> Option<Duty>, lookupOk: bool, putOk: bool): Store {
    if lookupOk && w in s.duties && mutate(s.duties[w]).Some? && putOk
    then s.(duties := s.duties[w := mutate(s.duties[w]).value])
    else s
  }

  function Evidence(epoch: nat, token: string, result: string): Duty -> Option<Duty> {
    (d: Duty) => Some(d.(epoch := epoch, token := token, fenceResult := result))
  }

  function AttemptFailed(cause: string, now: Time): Duty -> Option<Duty> {
    (d: Duty) => if d.state.FailedOver? then None else Some(d.(lastError := cause, nextAttemptAt := now + RETRY_DELAY))
  }

  function Completed(restoreID: string, reason: string, now: Time): Duty -> Option<Duty> {
    (d: Duty) => if d.state.FailedOver? then None
                 else Some(d.(state := FailedOver, failoverAt := now, restoreID := restoreID, reason := reason,
                              lastError := "", nextAttemptAt := 0))
  }

  datatype Claim = Claimed(checkpoint: Checkpoint) | AlreadyDone | InProgress | NothingHeld | Unreadable

  function Begin(s: Store, w: Workload, wanted: Option<Checkpoint>, lookupOk: bool): Claim {
    if !lookupOk || w !in s.duties then Unreadable
    else if s.duties[w].state.FailedOver? then AlreadyDone
    else if w in s.running then InProgress
    else if wanted.Some? then Claimed(wanted.value)
    else if s.duties[w].checkpoint.Some? then Claimed(s.duties[w].checkpoint.value)
    else NothingHeld
  }

  function AfterBegin(s: Store, w: Workload, wanted: Option<Checkpoint>, lookupOk: bool): Store {
    if Begin(s, w, wanted, lookupOk).Claimed? then s.(running := s.running + {w}) else s
  }

  // ---------------------------------------------------------------- the two-party hold

  /** The standby has durably stored a duty of this source that names this checkpoint. */
  predicate Names(s: Store, session: Session) {
    && session.workload in s.duties
    && s.duties[session.workload].checkpoint == session.checkpoint
    && s.duties[session.workload].source == session.source
  }

  /**
   What the source relies on when its confirmation reads HELD. A duty naming the pushed checkpoint is
   stored exactly when the record could be read, was not failed over, and either the record or, failing
   that, nothing could be written only because it was there already.
   */
  lemma ConfirmedHoldIff(s: Store, session: Session, now: Time, lookupOk: bool, putOk: bool, degradeOk: bool)
    requires session.replication && session.state.Held? && session.checkpoint.Some?
    requires SessionAfterHold(s, session, lookupOk, putOk, degradeOk).Held?
    ensures Names(Hold(s, session, now, lookupOk, putOk), session)
            <==> (lookupOk && !IsFailedOver(s, session.workload) && putOk) || Names(s, session)
  {
  }

  /** With a readable, armed duty and a working degrade write, a confirmed hold is a stored duty. */
  lemma ConfirmedHoldIsStored(s: Store, session: Session, now: Time, putOk: bool, degradeOk: bool)
    requires session.replication && session.state.Held? && session.checkpoint.Some?
    requires !IsFailedOver(s, session.workload) && degradeOk
    requires SessionAfterHold(s, session, true, putOk, degradeOk).Held?
    ensures Names(Hold(s, session, now, true, putOk), session)
    ensures Hold(s, session, now, true, putOk).duties[session.workload].state.Armed?
  {
  }

  // ---------------------------------------------------------------- the supervisor

  const ALREADY_RUNNING: string := "workload already running locally"

  /** What a failover meets: the checkpoint loads and is this workload's, the workload runs here already, and so on. */
  datatype FailoverFaults = FailoverFaults(
    lookupOk: bool, manifestOk: bool, alreadyRunning: bool, restoreOk: bool, restoreID: string, reason: string,
    now: Time, markLookupOk: bool, markPutOk: bool)
  {
    /** The checkpoint is this workload's, and the workload was restored from it or ran here already. */
    predicate Restores() {
      manifestOk && (alreadyRunning || restoreOk)
    }

    /** What is written on the duty in the end. */
    function Marking(): Duty -> Option<Duty> {
      if alreadyRunning then Completed("", ALREADY_RUNNING, now) else Completed(restoreID, reason, now)
    }
  }

  /** Which checkpoint a failover restores: the one asked for, or else the one the duty names. */
  predicate IsSelected(wanted: Option<Checkpoint>, d: Duty, c: Option<Checkpoint>) {
    (wanted.Some? ==> c == wanted) && (wanted.None? ==> c == d.checkpoint)
  }

  /** The duty carries what the hold's session says, and is armed. */
  predicate HoldWritten(session: Session, d: Duty) {
    && d.state.Armed? && d.source == session.source && d.checkpoint == session.checkpoint
    && d.agentURL == session.agentURL && d.keepLast == session.keepLast
  }

  /** A hold leaves when the duty was first held, its failover history, its last failure and its fencing evidence alone. */
  predicate HistoryKept(d: Duty, e: Duty) {
    && d.state == e.state && d.heldAt == e.heldAt
    && d.failoverAt == e.failoverAt && d.restoreID == e.restoreID && d.reason == e.reason
    && d.lastError == e.lastError && d.nextAttemptAt == e.nextAttemptAt
    && d.epoch == e.epoch && d.token == e.token && d.fenceResult == e.fenceResult
  }

  class StandbySupervisor {
    var duties: map<Workload, Duty>
    var deathSamples: map<Workload, nat>
    var failoverRunning: set<Workload>

    ghost function View(): Store
      reads this
    {
      Store(duties, deathSamples, failoverRunning)
    }

    constructor (stored: map<Workload, Duty>)
      ensures View() == Store(stored, map[], {})
    {
      duties, deathSamples, failoverRunning := stored, map[], {};
    }

    /** Returns the state the stored session is left in. */
    method ReplicationHeld(session: Session, now: Time, lookupOk: bool, putOk: bool, degradeOk: bool) returns (after: SessionState)
      modifies this
      ensures View() == Hold(old(View()), session, now, lookupOk, putOk)
      ensures after == SessionAfterHold(old(View()), session, lookupOk, putOk, degradeOk)
      // In terms of the records: which holds count, what a counted one writes and what it leaves.
      ensures var counts := session.replication && session.state.Held? && session.checkpoint.Some? && lookupOk
                            && (session.workload in old(duties) ==> old(duties)[session.workload].state.Armed?);
              && (after != session.state ==> after.Failed?)
              && (after.Failed? && !session.state.Failed? <==> counts && !putOk && degradeOk)
              && (if counts && putOk then session.workload in duties && HoldWritten(session, duties[session.workload])
                  else duties == old(duties))
      ensures duties - {session.workload} == old(duties) - {session.workload}
      ensures session.workload in old(duties) ==>
                session.workload in duties && HistoryKept(old(duties)[session.workload], duties[session.workload])
      ensures session.workload in duties && session.workload !in old(duties) ==> duties[session.workload].heldAt == now
      ensures deathSamples == old(deathSamples) && failoverRunning == old(failoverRunning)
    {
      after := session.state;
      if !session.replication || !session.state.Held? || session.checkpoint.None? { return; }
      var duty := Duty(Armed, 0, "", 0, None, now, 0, "", "", "", 0, 0, "", "");
      if !lookupOk { return; }
      if session.workload in duties { duty := duties[session.workload]; }
      if duty.state.FailedOver? { return; }
      duty := duty.(source := session.source, agentURL := session.agentURL, keepLast := session.keepLast,
                    checkpoint := session.checkpoint);
      if !putOk {
        if degradeOk { after := Failed; }
        return;
      }
      duties := duties[session.workload := duty];
    }

    method ReplicationWithdrawn(caller: Machine, w: Workload, lookupOk: bool, deleteOk: bool)
      modifies this
      ensures View() == Withdraw(old(View()), caller, w, lookupOk, deleteOk)
      // Gone exactly when the recorded source asks for an armed duty that can be read and deleted, the samples with it.
      ensures var gone := lookupOk && w in old(duties) && old(duties)[w].source == caller && old(duties)[w].state.Armed? && deleteOk;
              && duties == (if gone then old(duties) - {w} else old(duties))
              && deathSamples == (if gone then old(deathSamples) - {w} else old(deathSamples))
      ensures failoverRunning == old(failoverRunning)
    {
      if !lookupOk || w !in duties { return; }
      if duties[w].source != caller { return; }
      if duties[w].state.FailedOver? { return; }
      if !deleteOk { return; }
      duties := duties - {w};
      deathSamples := deathSamples - {w};
    }

    method RecordDeathSample(w: Workload) returns (sustained: bool)
      modifies this`deathSamples
      ensures View() == RecordDeath(old(View()), w)
      ensures sustained <==> Samples(View(), w) >= DEATH_SAMPLE_TARGET
      ensures var n := if w in old(deathSamples) then old(deathSamples)[w] else 0;
              deathSamples == old(deathSamples)[w := if n < 3 then n + 1 else n]
    {
      var count := if w in deathSamples then deathSamples[w] else 0;
      if count < DEATH_SAMPLE_TARGET { count := count + 1; }
      deathSamples := deathSamples[w := count];
      return count >= DEATH_SAMPLE_TARGET;
    }

    method ClearDeathSample(w: Workload)
      modifies this`deathSamples
      ensures View() == ClearDeath(old(View()), w)
    {
      deathSamples := deathSamples - {w};
    }

    /** considerFailover up to the sustained observation: both signals count, life clears, the rest leaves the count. */
    method ConsiderDeath(w: Workload, sight: Sighting) returns (sustained: bool)
      modifies this`deathSamples
      ensures View() == Observed(old(View()), w, sight)
      ensures sustained <==> PlaneSaysGone(sight) && ListenerSilent(sight) && Samples(View(), w) >= DEATH_SAMPLE_TARGET
      ensures SignOfLife(sight) ==> Samples(View(), w) == 0
      ensures !(PlaneSaysGone(sight) && ListenerSilent(sight)) && !SignOfLife(sight) ==> View() == old(View())
      ensures forall v | v != w :: Samples(View(), v) == Samples(old(View()), v)
    {
      if sight.record.None? { return false; }
      if !PresenceOffline(sight.record.value, sight.now) {
        ClearDeathSample(w);
        return false;
      }
      if sight.agentURL == "" { return false; }
      if sight.probe.CannotRun? { return false; }
      if sight.probe.Answers? {
        ClearDeathSample(w);
        return false;
      }
      sustained := RecordDeathSample(w);
    }

    method UpdateDutyLocked(w: Workload, mutate: Duty -> Option<Duty>, lookupOk: bool, putOk: bool) returns (written: bool)
      modifies this`duties
      ensures View() == Update(old(View()), w, mutate, lookupOk, putOk)
      ensures written <==> lookupOk && w in old(duties) && mutate(old(duties)[w]).Some? && putOk
    {
      if !lookupOk || w !in duties { return false; }
      var changed := mutate(duties[w]);
      if changed.None? || !putOk { return false; }
      duties := duties[w := changed.value];
      return true;
    }

    method RecordFencingEvidence(w: Workload, epoch: nat, token: string, result: string, lookupOk: bool, putOk: bool)
      modifies this`duties
      ensures View() == Update(old(View()), w, Evidence(epoch, token, result), lookupOk, putOk)
      ensures duties == if lookupOk && w in old(duties) && putOk
                        then old(duties)[w := old(duties)[w].(epoch := epoch, token := token, fenceResult := result)]
                        else old(duties)
    {
      var _ := UpdateDutyLocked(w, Evidence(epoch, token, result), lookupOk, putOk);
    }

    method RecordAttemptFailure(w: Workload, cause: string, now: Time, lookupOk: bool, putOk: bool)
      modifies this`duties
      ensures View() == Update(old(View()), w, AttemptFailed(cause, now), lookupOk, putOk)
      // The failure and the next attempt, a minute on, are noted on a duty that is still armed.
      ensures duties == if lookupOk && w in old(duties) && old(duties)[w].state.Armed? && putOk
                        then old(duties)[w := old(duties)[w].(lastError := cause, nextAttemptAt := now + 60)]
                        else old(duties)
    {
      var _ := UpdateDutyLocked(w, AttemptFailed(cause, now), lookupOk, putOk);
    }

    method MarkFailedOver(w: Workload, restoreID: string, reason: string, now: Time, lookupOk: bool, putOk: bool) returns (ok: bool)
      modifies this`duties
      ensures View() == Update(old(View()), w, Completed(restoreID, reason, now), lookupOk, putOk)
      ensures ok ==> IsFailedOver(View(), w)
      ensures ok <==> lookupOk && w in old(duties) && (putOk || IsFailedOver(old(View()), w))
      // When, from which restore and why, with the last failure cleared; everything else on the record stays.
      ensures duties == if lookupOk && w in old(duties) && old(duties)[w].state.Armed? && putOk
                        then old(duties)[w := old(duties)[w].(state := FailedOver, failoverAt := now, restoreID := restoreID,
                                                              reason := reason, lastError := "", nextAttemptAt := 0)]
                        else old(duties)
    {
      var terminal := lookupOk && w in duties && duties[w].state.FailedOver?;
      var written := UpdateDutyLocked(w, Completed(restoreID, reason, now), lookupOk, putOk);
      return written || terminal;
    }

    method BeginFailover(w: Workload, wanted: Option<Checkpoint>, lookupOk: bool) returns (claim: Claim)
      modifies this`failoverRunning
      ensures claim == Begin(old(View()), w, wanted, lookupOk)
      ensures View() == AfterBegin(old(View()), w, wanted, lookupOk)
      // The wanted checkpoint is claimed, else the newest held; and each refusal has its own reason.
      ensures claim.Claimed? ==> w in old(duties) && IsSelected(wanted, old(duties)[w], Some(claim.checkpoint))
      ensures claim.Unreadable? <==> !lookupOk || w !in old(duties)
      ensures claim.AlreadyDone? <==> lookupOk && w in old(duties) && old(duties)[w].state.FailedOver?
      ensures claim.InProgress? <==> lookupOk && w in old(duties) && old(duties)[w].state.Armed? && w in old(failoverRunning)
      ensures claim.NothingHeld? <==> && lookupOk && w in old(duties) && old(duties)[w].state.Armed? && w !in old(failoverRunning)
                                      && wanted.None? && old(duties)[w].checkpoint.None?
      ensures failoverRunning == if claim.Claimed? then old(failoverRunning) + {w} else old(failoverRunning)
    {
      if !lookupOk || w !in duties { return Unreadable; }
      if duties[w].state.FailedOver? { return AlreadyDone; }
      if w in failoverRunning { return InProgress; }
      var selected := if wanted.Some? then wanted else duties[w].checkpoint;
      if selected.None? { return NothingHeld; }
      failoverRunning := failoverRunning + {w};
      return Claimed(selected.value);
    }

    method EndFailover(w: Workload)
      modifies this`failoverRunning
      ensures View() == old(View()).(running := old(failoverRunning) - {w})
    {
      failoverRunning := failoverRunning - {w};
    }

    /**
     failover, run without another caller in between: claim, restore, mark, release. Whatever happens the claims are
     as before; a restore starts only on a claim, of the wanted or the newest held checkpoint; a duty newly marked
     was restored here or already running here; and success means the duty is failed over.
     */
    method Failover(w: Workload, wanted: Option<Checkpoint>, env: FailoverFaults) returns (ok: bool, started: Option<Checkpoint>)
      modifies this
      ensures failoverRunning == old(failoverRunning) && deathSamples == old(deathSamples)
      ensures var claim := Begin(old(View()), w, wanted, env.lookupOk);
              && (started.Some? <==> claim.Claimed? && env.manifestOk && !env.alreadyRunning)
              && (started.Some? ==> w in old(duties) && IsSelected(wanted, old(duties)[w], started))
              // Marked exactly when the claimed checkpoint was restored, or the workload already ran here.
              && View() == (if claim.Claimed? && env.Restores()
                            then Update(old(View()), w, env.Marking(), env.markLookupOk, env.markPutOk) else old(View()))
              && (ok <==> claim.AlreadyDone? || (claim.Claimed? && env.Restores() && env.markLookupOk && env.markPutOk))
      ensures ok ==> IsFailedOver(View(), w)
      ensures !ok ==> View() == old(View())
    {
      started := None;
      var claim := BeginFailover(w, wanted, env.lookupOk);
      if claim.AlreadyDone? { return true, None; }
      if !claim.Claimed? { return false, None; }
      ok := false;
      if env.manifestOk {
        if env.alreadyRunning {
          ok := MarkFailedOver(w, "", ALREADY_RUNNING, env.now, env.markLookupOk, env.markPutOk);
        } else {
          started := Some(claim.checkpoint);
          if env.restoreOk {
            ok := MarkFailedOver(w, env.restoreID, env.reason, env.now, env.markLookupOk, env.markPutOk);
          }
        }
      }
      EndFailover(w);
    }
  }
}
