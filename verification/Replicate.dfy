/**
 The sending half of warm-standby failover, internal/agent/replicate.go, composed with the standbys it
 pushes to. A pass first withdraws duties the source no longer owes, then pushes what is due. Policies may
 be edited between any two ledger entries, and every remote call may fail before or after it took effect. A
 hold whose call gave up may still be at work on the standby and land at any later time.
 */
module Replicate {
  import opened Wrappers
  import Standby

  type Workload = Standby.Workload
  type Checkpoint = Standby.Checkpoint
  type URL = nat

  datatype Entry = Entry(standby: URL, checkpoint: Option<Checkpoint>, failing: bool)

  /** runtime.Get of a workload: gone, unreadable, or its failover policy. */
  datatype Spec = Gone | Unreadable | Policy(standby: Option<URL>)

  /** A remote call: answered, or an error after the standby did or did not act on it. */
  datatype Call = Answered | Lost(applied: bool)

  /** When a hold reaches the standby's duty record, if at all: during its call, or after the call gave up. */
  datatype Delivery = Never | AtCall | Late

  /** A hold still at work on a standby after its call, or an earlier attempt of that call, gave up. */
  datatype Pending = Pending(at: URL, w: Workload, checkpoint: Checkpoint, keepLast: nat)

  datatype Action =
    | Withdraw(w: Workload, spec: Spec, due: bool, call: Call, lookupOk: bool, deleteOk: bool, ledgerOk: bool)
    | Push(w: Workload, policy: Option<URL>, keepLast: nat, migrating: bool, root: Option<Checkpoint>, readable: bool, due: bool,
           hold: Delivery, now: nat, lookupOk: bool, putOk: bool, degradeOk: bool, heard: bool, firstOk: bool, secondOk: bool)
    | LateHold(late: Pending, now: nat, lookupOk: bool, putOk: bool)
    | Elsewhere(at: URL, store: Standby.Store)

  /**
   The source, the address it advertises for itself, its ledger, the standbys it may reach, the holds still at work there, and the history of duties
   that were ever durably stored for it.
   */
  datatype System = System(
    me: Standby.Machine, advertised: string, ledger: map<Workload, Entry>, standbys: map<URL, Standby.Store>,
    pending: multiset<Pending>, stored: set<(URL, Workload, Checkpoint)>)

  /** Standby u keeps an armed duty for this source's workload w. */
  predicate Owed(s: System, u: URL, w: Workload) {
    && u in s.standbys && w in s.standbys[u].duties
    && s.standbys[u].duties[w].source == s.me && s.standbys[u].duties[w].state.Armed?
  }

  // ---------------------------------------------------------------- one ledger entry, one workload

  predicate Stale(spec: Spec, entry: Entry) {
    spec.Gone? || (spec.Policy? && spec.standby != Some(entry.standby))
  }

  predicate WithdrawRuns(s: System, a: Action)
    requires a.Withdraw?
  {
    a.w in s.ledger && Stale(a.spec, s.ledger[a.w]) && (s.ledger[a.w].failing ==> a.due)
  }

  function WithdrawStep(s: System, a: Action): System
    requires a.Withdraw?
  {
    if !WithdrawRuns(s, a) then s
    else
      var entry := s.ledger[a.w];
      var u := entry.standby;
      var answered := a.call.Answered? && u in s.standbys;
      var remote := if u in s.standbys && (answered || a.call.applied)
                    then s.standbys[u := Standby.Withdraw(s.standbys[u], s.me, a.w, a.lookupOk, a.deleteOk)]
                    else s.standbys;
      var ledger := if !a.ledgerOk then s.ledger
                    else if answered then s.ledger - {a.w}
                    else s.ledger[a.w := entry.(failing := true)];
      s.(ledger := ledger, standbys := remote)
  }

  /** A push of a root checkpoint is due: a policy, no migration, nothing pushed or owed that forbids it. */
  predicate PushRuns(s: System, a: Action)
    requires a.Push?
  {
    && a.policy.Some? && !a.migrating && a.root.Some? && a.readable
    && (a.w in s.ledger ==>
          && s.ledger[a.w].standby == a.policy.value
          && s.ledger[a.w].checkpoint != a.root
          && (s.ledger[a.w].failing ==> a.due))
  }

  /** What a held session carries: who pushes, what, the address to probe before believing it dead, and how many to keep. */
  function SessionOf(me: Standby.Machine, advertised: string, w: Workload, checkpoint: Option<Checkpoint>, keepLast: nat): Standby.Session {
    Standby.Session(true, Standby.Held, me, w, checkpoint, advertised, keepLast)
  }

  /** The hold reached the standby and its duty was durably stored. */
  predicate Lands(s: System, a: Action)
    requires a.Push?
  {
    && PushRuns(s, a) && a.hold.AtCall? && a.policy.value in s.standbys
    && Standby.Accepts(s.standbys[a.policy.value], SessionOf(s.me, s.advertised, a.w, a.root, a.keepLast), a.lookupOk) && a.putOk
  }

  /** The hold and the confirmation were answered, and the stored session still reads HELD. */
  predicate Confirms(s: System, a: Action)
    requires a.Push?
  {
    && PushRuns(s, a) && a.hold.AtCall? && a.policy.value in s.standbys && a.heard
    && Standby.SessionAfterHold(s.standbys[a.policy.value], SessionOf(s.me, s.advertised, a.w, a.root, a.keepLast), a.lookupOk, a.putOk, a.degradeOk).Held?
  }

  function PushStep(s: System, a: Action): System
    requires a.Push?
  {
    if !PushRuns(s, a) then s
    else
      var u := a.policy.value;
      var remote := if a.hold.AtCall? && u in s.standbys
                    then s.standbys[u := Standby.Hold(s.standbys[u], SessionOf(s.me, s.advertised, a.w, a.root, a.keepLast), a.now, a.lookupOk, a.putOk)]
                    else s.standbys;
      var before := if a.w in s.ledger then s.ledger[a.w].checkpoint else None;
      var ledger := if Confirms(s, a) && a.firstOk then s.ledger[a.w := Entry(u, a.root, false)]
                    else if a.secondOk then s.ledger[a.w := Entry(u, before, true)]
                    else s.ledger;
      s.(ledger := ledger, standbys := remote,
         pending := if a.hold.Late? then s.pending + multiset{Pending(u, a.w, a.root.value, a.keepLast)} else s.pending,
         stored := if Lands(s, a) then s.stored + {(u, a.w, a.root.value)} else s.stored)
  }

  /** The late hold is one that is pending, at a standby that exists. */
  predicate LateRuns(s: System, a: Action)
    requires a.LateHold?
  {
    a.late in s.pending && a.late.at in s.standbys
  }

  predicate LateLands(s: System, a: Action)
    requires a.LateHold?
  {
    && LateRuns(s, a) && a.putOk
    && Standby.Accepts(s.standbys[a.late.at], SessionOf(s.me, s.advertised, a.late.w, Some(a.late.checkpoint), a.late.keepLast), a.lookupOk)
  }

  function LateStep(s: System, a: Action): System
    requires a.LateHold?
  {
    if !LateRuns(s, a) then s
    else
      var (u, session) := (a.late.at, SessionOf(s.me, s.advertised, a.late.w, Some(a.late.checkpoint), a.late.keepLast));
      s.(standbys := s.standbys[u := Standby.Hold(s.standbys[u], session, a.now, a.lookupOk, a.putOk)],
         pending := s.pending - multiset{a.late},
         stored := if LateLands(s, a) then s.stored + {(u, a.late.w, a.late.checkpoint)} else s.stored)
  }

  /**
   A standby acts on its own: failovers, other sources, a withdrawal that lands after its call gave up. It never
   arms a duty in this source's name.
   */
  predicate ElsewhereRuns(s: System, a: Action)
    requires a.Elsewhere?
  {
    && a.at in s.standbys
    && forall w | w in a.store.duties && a.store.duties[w].source == s.me && a.store.duties[w].state.Armed? :: Owed(s, a.at, w)
  }

  function Step(s: System, a: Action): System {
    match a
    case Withdraw(_, _, _, _, _, _, _) => WithdrawStep(s, a)
    case Push(_, _, _, _, _, _, _, _, _, _, _, _, _, _, _) => PushStep(s, a)
    case LateHold(_, _, _, _) => LateStep(s, a)
    case Elsewhere(u, store) => if ElsewhereRuns(s, a) then s.(standbys := s.standbys[u := store]) else s
  }

  function Exec(s: System, run: seq<Action>): System {
    if run == [] then s else Step(Exec(s, run[..|run| - 1]), run[|run| - 1])
  }

  // ---------------------------------------------------------------- no orphaned duty

  /** Every duty this source holds anywhere is at the standby its ledger entry names. */
  ghost predicate NoOrphan(s: System) {
    forall u, w | Owed(s, u, w) :: w in s.ledger && s.ledger[w].standby == u
  }

  /**
   The steps that strand a duty: a withdrawal the standby answered without removing the duty, a first hold that
   landed while neither ledger write did, and a late hold that lands where no ledger entry names its standby.
   */
  predicate Strands(s: System, a: Action) {
    match a
    case Withdraw(w, _, _, call, lookupOk, deleteOk, ledgerOk) =>
      && WithdrawRuns(s, a) && call.Answered? && ledgerOk
      && Owed(s, s.ledger[w].standby, w) && !(lookupOk && deleteOk)
    case Push(w, _, _, _, _, _, _, _, _, _, _, _, _, firstOk, secondOk) =>
      Lands(s, a) && w !in s.ledger && !secondOk && !(Confirms(s, a) && firstOk)
    case LateHold(late, _, _, _) =>
      LateLands(s, a) && !(late.w in s.ledger && s.ledger[late.w].standby == late.at)
    case Elsewhere(_, _) => false
  }

  lemma WithdrawStrandsIff(s: System, a: Action)
    requires NoOrphan(s) && a.Withdraw?
    ensures NoOrphan(Step(s, a)) <==> !Strands(s, a)
  {
    var t := Step(s, a);
    if Strands(s, a) {
      assert Owed(t, s.ledger[a.w].standby, a.w);
    } else {
      forall u, w | Owed(t, u, w) ensures w in t.ledger && t.ledger[w].standby == u { assert Owed(s, u, w); }
    }
  }

  lemma PushStrandsIff(s: System, a: Action)
    requires NoOrphan(s) && a.Push?
    ensures NoOrphan(Step(s, a)) <==> !Strands(s, a)
  {
    var t := Step(s, a);
    if Strands(s, a) {
      assert Owed(t, a.policy.value, a.w) && a.w !in t.ledger;
    } else {
      forall u, w | Owed(t, u, w) ensures w in t.ledger && t.ledger[w].standby == u {
        assert Owed(s, u, w) || (Lands(s, a) && u == a.policy.value && w == a.w);
      }
    }
  }

  lemma LateStrandsIff(s: System, a: Action)
    requires NoOrphan(s) && a.LateHold?
    ensures NoOrphan(Step(s, a)) <==> !Strands(s, a)
  {
    var t := Step(s, a);
    if Strands(s, a) {
      assert Owed(t, a.late.at, a.late.w);
    } else {
      forall u, w | Owed(t, u, w) ensures w in t.ledger && t.ledger[w].standby == u {
        assert Owed(s, u, w) || (LateLands(s, a) && u == a.late.at && w == a.late.w);
      }
    }
  }

  lemma StrandsIff(s: System, a: Action)
    requires NoOrphan(s)
    ensures NoOrphan(Step(s, a)) <==> !Strands(s, a)
  {
    match a {
      case Withdraw(_, _, _, _, _, _, _) => WithdrawStrandsIff(s, a);
      case Push(_, _, _, _, _, _, _, _, _, _, _, _, _, _, _) => PushStrandsIff(s, a);
      case LateHold(_, _, _, _) => LateStrandsIff(s, a);
      case Elsewhere(_, _) => {
        var t := Step(s, a);
        forall u, w | Owed(t, u, w) ensures w in t.ledger && t.ledger[w].standby == u { assert Owed(s, u, w); }
      }
    }
  }

  ghost predicate NeverOrphans(s: System, run: seq<Action>) {
    forall k | 0 <= k <= |run| :: NoOrphan(Exec(s, run[..k]))
  }

  ghost predicate NeverStrands(s: System, run: seq<Action>) {
    forall k | 0 <= k < |run| :: !Strands(Exec(s, run[..k]), run[k])
  }

  lemma ExecStep(s: System, run: seq<Action>, k: nat)
    requires k < |run|
    ensures Exec(s, run[..k + 1]) == Step(Exec(s, run[..k]), run[k])
  {
    assert run[..k + 1][..k] == run[..k];
  }

  lemma {:induction false} ExecConcat(s: System, a: seq<Action>, b: seq<Action>)
    ensures Exec(s, a + b) == Exec(Exec(s, a), b)
    decreases b
  {
    if b == [] {
      assert a + b == a;
    } else {
      assert (a + b)[..|a + b| - 1] == a + b[..|b| - 1];
      ExecConcat(s, a, b[..|b| - 1]);
    }
  }

  /** Over any history of edits, failed pushes and failed withdrawals no duty is ever orphaned, if and only if no step strands one. */
  lemma NoOrphanIff(s: System, run: seq<Action>)
    requires NoOrphan(s)
    ensures NeverOrphans(s, run) <==> NeverStrands(s, run)
  {
    if NeverOrphans(s, run) {
      forall k | 0 <= k < |run| ensures !Strands(Exec(s, run[..k]), run[k]) {
        ExecStep(s, run, k);
        assert NoOrphan(Exec(s, run[..k])) && NoOrphan(Exec(s, run[..k + 1]));
        StrandsIff(Exec(s, run[..k]), run[k]);
      }
    }
    if NeverStrands(s, run) {
      forall k | 0 <= k <= |run| ensures NoOrphan(Exec(s, run[..k])) { NoOrphanUpTo(s, run, k); }
    }
  }

  lemma {:induction false} NoOrphanUpTo(s: System, run: seq<Action>, k: nat)
    requires NoOrphan(s) && NeverStrands(s, run) && k <= |run|
    ensures NoOrphan(Exec(s, run[..k]))
  {
    if k > 0 {
      NoOrphanUpTo(s, run, k - 1);
      ExecStep(s, run, k - 1);
      StrandsIff(Exec(s, run[..k - 1]), run[k - 1]);
    }
  }

  /** One standby without duties. */
  function Bare(me: Standby.Machine, u: URL, ledger: map<Workload, Entry>, pending: multiset<Pending>): System {
    System(me, "", ledger, map[u := Standby.Store(map[], map[], {})], pending, {})
  }

  function GivenUp(u: URL, w: Workload, c: Checkpoint): Action {
    Push(w, Some(u), 0, false, Some(c), true, true, Late, 0, true, true, true, true, true, true)
  }

  lemma GivenUpIsNoted(me: Standby.Machine, u: URL, w: Workload, c: Checkpoint)
    ensures PushStep(Bare(me, u, map[], multiset{}), GivenUp(u, w, c))
            == Bare(me, u, map[w := Entry(u, None, true)], multiset{Pending(u, w, c, 0)})
  {
  }

  lemma NothingToWithdraw(me: Standby.Machine, u: URL, w: Workload, p: multiset<Pending>)
    ensures WithdrawStep(Bare(me, u, map[w := Entry(u, None, true)], p), Withdraw(w, Policy(None), true, Answered, true, true, true))
            == Bare(me, u, map[], p)
  {
    var s := Bare(me, u, map[w := Entry(u, None, true)], p);
    assert s.standbys[u := s.standbys[u]] == s.standbys;
  }

  /**
   The late hold, concretely: its call gives up and the ledger notes the failure, the policy goes, the withdrawal
   finds no duty and is answered, and then the hold lands. Every ledger write worked.
   */
  lemma LateHoldOrphans(me: Standby.Machine, u: URL, w: Workload, c: Checkpoint)
    ensures var s := Bare(me, u, map[], multiset{});
            var pushed := PushStep(s, GivenUp(u, w, c));
            var withdrawn := WithdrawStep(pushed, Withdraw(w, Policy(None), true, Answered, true, true, true));
            var landed := LateStep(withdrawn, LateHold(Pending(u, w, c, 0), 0, true, true));
            NoOrphan(s) && NoOrphan(pushed) && NoOrphan(withdrawn) && !NoOrphan(landed)
  {
    GivenUpIsNoted(me, u, w, c);
    NothingToWithdraw(me, u, w, multiset{Pending(u, w, c, 0)});
    LandsUnnamed(Bare(me, u, map[], multiset{Pending(u, w, c, 0)}), u, w, c);
  }

  lemma LandsUnnamed(s: System, u: URL, w: Workload, c: Checkpoint)
    requires Pending(u, w, c, 0) in s.pending && u in s.standbys && s.standbys[u].duties == map[] && s.ledger == map[]
    ensures !NoOrphan(LateStep(s, LateHold(Pending(u, w, c, 0), 0, true, true)))
  {
    assert Owed(LateStep(s, LateHold(Pending(u, w, c, 0), 0, true, true)), u, w);
  }

  /** Without orphans, at most one standby holds a duty of this source for a workload. */
  lemma OneStandby(s: System, u: URL, v: URL, w: Workload)
    requires NoOrphan(s) && Owed(s, u, w) && Owed(s, v, w)
    ensures u == v
  {
  }

  // ---------------------------------------------------------------- what the ledger claims

  /** Every checkpoint the ledger says was pushed had been durably stored as a duty on that standby. */
  ghost predicate Backed(s: System) {
    forall w | w in s.ledger && s.ledger[w].checkpoint.Some? ::
      (s.ledger[w].standby, w, s.ledger[w].checkpoint.value) in s.stored
  }

  /** A push recorded as successful although nothing was stored, now or before. */
  predicate Overclaims(s: System, a: Action) {
    a.Push? && Confirms(s, a) && a.firstOk && !Lands(s, a) && (a.policy.value, a.w, a.root.value) !in s.stored
  }

  lemma OverclaimsIff(s: System, a: Action)
    requires Backed(s)
    ensures Backed(Step(s, a)) <==> !Overclaims(s, a)
  {
    if Overclaims(s, a) { assert a.w in Step(s, a).ledger; }
  }

  /** It takes an unreadable duty, a failed-over duty, or two failed writes on the standby to overclaim. */
  lemma OverclaimNeeds(s: System, a: Action)
    requires Overclaims(s, a)
    ensures !a.lookupOk || Standby.IsFailedOver(s.standbys[a.policy.value], a.w) || (!a.putOk && !a.degradeOk)
  {
  }

  /** The two-party claim over whole histories: with healthy standbys the ledger never claims what was not stored. */
  lemma {:induction false} LedgerIsBacked(s: System, run: seq<Action>)
    requires Backed(s)
    requires forall k | 0 <= k < |run| && run[k].Push? && Confirms(Exec(s, run[..k]), run[k]) ::
               run[k].lookupOk && run[k].degradeOk &&
               !Standby.IsFailedOver(Exec(s, run[..k]).standbys[run[k].policy.value], run[k].w)
    ensures Backed(Exec(s, run))
  {
    if run != [] {
      var n := |run| - 1;
      forall k | 0 <= k < n ensures run[..n][..k] == run[..k] {}
      assert run[..n + 1] == run;
      LedgerIsBacked(s, run[..n]);
      if Overclaims(Exec(s, run[..n]), run[n]) { OverclaimNeeds(Exec(s, run[..n]), run[n]); }
      OverclaimsIff(Exec(s, run[..n]), run[n]);
    }
  }

  // ---------------------------------------------------------------- whether the standby still holds what the ledger claims

  /** Standby u's duty for w is this source's and names the checkpoint now. */
  predicate NamesNow(s: System, u: URL, w: Workload, c: Option<Checkpoint>) {
    && u in s.standbys && w in s.standbys[u].duties
    && s.standbys[u].duties[w].source == s.me && s.standbys[u].duties[w].checkpoint == c
  }

  /** The checkpoint the ledger says was pushed is the one a failover of w would restore. */
  predicate Current(s: System, w: Workload) {
    w in s.ledger && s.ledger[w].checkpoint.Some? ==> NamesNow(s, s.ledger[w].standby, w, s.ledger[w].checkpoint)
  }

  /** The withdrawal removes the duty on the standby. */
  predicate Removes(s: System, a: Action)
    requires a.Withdraw?
  {
    && WithdrawRuns(s, a) && s.ledger[a.w].standby in s.standbys && (a.call.Answered? || a.call.applied)
    && Standby.Withdraws(s.standbys[s.ledger[a.w].standby], s.me, a.w, a.lookupOk) && a.deleteOk
  }

  /**
   The steps after which the standby would restore something else than the ledger says: a duty withdrawn while the entry
   stays; a newer checkpoint held but not recorded; one recorded but not held; an older hold that lands late; and
   whatever the standby does on its own.
   */
  predicate Diverges(s: System, a: Action, w: Workload) {
    match a
    case Withdraw(v, _, _, call, _, _, ledgerOk) =>
      v == w && Removes(s, a) && s.ledger[w].checkpoint.Some? && !(call.Answered? && ledgerOk)
    case Push(v, policy, _, _, root, _, _, _, _, _, _, _, _, firstOk, _) =>
      v == w && if Confirms(s, a) && firstOk then !Lands(s, a) && !NamesNow(s, policy.value, w, root)
                else Lands(s, a) && w in s.ledger && s.ledger[w].checkpoint.Some?
    case LateHold(late, _, _, _) =>
      && late.w == w && LateLands(s, a) && w in s.ledger && s.ledger[w].standby == late.at
      && s.ledger[w].checkpoint.Some? && s.ledger[w].checkpoint != Some(late.checkpoint)
    case Elsewhere(u, store) =>
      && ElsewhereRuns(s, a) && w in s.ledger && s.ledger[w].standby == u && s.ledger[w].checkpoint.Some?
      && !(w in store.duties && store.duties[w].source == s.me && store.duties[w].checkpoint == s.ledger[w].checkpoint)
  }

  lemma WithdrawDivergesIff(s: System, a: Action, w: Workload)
    requires Current(s, w) && a.Withdraw?
    ensures Current(WithdrawStep(s, a), w) <==> !Diverges(s, a, w)
  {
  }

  lemma PushDivergesIff(s: System, a: Action, w: Workload)
    requires Current(s, w) && a.Push?
    ensures Current(PushStep(s, a), w) <==> !Diverges(s, a, w)
  {
  }

  lemma LateDivergesIff(s: System, a: Action, w: Workload)
    requires Current(s, w) && a.LateHold?
    ensures Current(LateStep(s, a), w) <==> !Diverges(s, a, w)
  {
  }

  /** One step keeps the standby's duty on the ledger's checkpoint if and only if it is none of those. */
  lemma DivergesIff(s: System, a: Action, w: Workload)
    requires Current(s, w)
    ensures Current(Step(s, a), w) <==> !Diverges(s, a, w)
  {
    match a {
      case Withdraw(_, _, _, _, _, _, _) => WithdrawDivergesIff(s, a, w);
      case Push(_, _, _, _, _, _, _, _, _, _, _, _, _, _, _) => PushDivergesIff(s, a, w);
      case LateHold(_, _, _, _) => LateDivergesIff(s, a, w);
      case Elsewhere(_, _) =>
    }
  }

  lemma {:induction false} CurrentUpTo(s: System, run: seq<Action>, w: Workload, k: nat)
    requires Current(s, w) && k <= |run|
    requires forall j | 0 <= j < |run| :: !Diverges(Exec(s, run[..j]), run[j], w)
    ensures Current(Exec(s, run[..k]), w)
  {
    if k > 0 {
      CurrentUpTo(s, run, w, k - 1);
      ExecStep(s, run, k - 1);
      DivergesIff(Exec(s, run[..k - 1]), run[k - 1], w);
    }
  }

  /** Over any history the standby would restore what the ledger says at every point, if and only if no step diverges. */
  lemma CurrentIff(s: System, run: seq<Action>, w: Workload)
    requires Current(s, w)
    ensures (forall k | 0 <= k <= |run| :: Current(Exec(s, run[..k]), w))
            <==> forall k | 0 <= k < |run| :: !Diverges(Exec(s, run[..k]), run[k], w)
  {
    if forall k | 0 <= k <= |run| :: Current(Exec(s, run[..k]), w) {
      forall k | 0 <= k < |run| ensures !Diverges(Exec(s, run[..k]), run[k], w) {
        ExecStep(s, run, k);
        assert Current(Exec(s, run[..k]), w) && Current(Exec(s, run[..k + 1]), w);
        DivergesIff(Exec(s, run[..k]), run[k], w);
      }
    }
    if forall k | 0 <= k < |run| :: !Diverges(Exec(s, run[..k]), run[k], w) {
      forall k | 0 <= k <= |run| ensures Current(Exec(s, run[..k]), w) { CurrentUpTo(s, run, w, k); }
    }
  }

  /** A push of a root checkpoint is made: asked for, possible, not made already, and not held back by an earlier failure. */
  predicate Due(ledger: map<Workload, Entry>, a: Action)
    requires a.Push?
  {
    && a.policy.Some? && a.root.Some? && a.readable && !a.migrating
    && (a.w !in ledger || (&& ledger[a.w].standby == a.policy.value && ledger[a.w].checkpoint != a.root
                           && (!ledger[a.w].failing || a.due)))
  }

  // ---------------------------------------------------------------- what a withdrawal and a push do, in terms of the records

  /** A withdrawal is left alone without an entry, while the workload cannot be read or still asks for that standby, or before a retry is due. */
  lemma WithdrawalSkipped(s: System, a: Action)
    requires a.Withdraw?
    requires a.w in s.ledger ==>
               || a.spec.Unreadable? || a.spec == Policy(Some(s.ledger[a.w].standby)) || (s.ledger[a.w].failing && !a.due)
    ensures WithdrawStep(s, a) == s
  {
  }

  /** The workload is gone, or asks for no standby or another, and no earlier failure holds the withdrawal back. */
  predicate WithdrawalOwed(s: System, a: Action)
    requires a.Withdraw?
  {
    && a.w in s.ledger && (s.ledger[a.w].failing ==> a.due)
    && (a.spec.Gone? || (a.spec.Policy? && (a.spec.standby.None? || a.spec.standby.value != s.ledger[a.w].standby)))
  }

  /** Such a withdrawal, answered, strikes the entry, and the duty if the standby can read and delete it; else it is noted as failing. */
  lemma WithdrawalMade(s: System, a: Action)
    requires a.Withdraw? && WithdrawalOwed(s, a)
    ensures var (entry, t) := (s.ledger[a.w], WithdrawStep(s, a));
            var answered := a.call.Answered? && entry.standby in s.standbys;
            && t.ledger == (if !a.ledgerOk then s.ledger else if answered then s.ledger - {a.w} else s.ledger[a.w := entry.(failing := true)])
            && (answered && a.lookupOk && a.deleteOk ==> !Owed(t, entry.standby, a.w))
            && (!answered && !(a.call.Lost? && a.call.applied) ==> t.standbys == s.standbys)
  {
  }

  /** A push that is not due changes nothing. */
  lemma PushSkipped(s: System, a: Action)
    requires a.Push? && !Due(s.ledger, a)
    ensures PushStep(s, a) == s
  {
  }

  /** The standby takes the hold during the call: it is there, its record can be read and written, and is not failed over. */
  predicate Taken(s: System, a: Action)
    requires a.Push?
  {
    && a.policy.Some? && a.policy.value in s.standbys && a.hold.AtCall? && a.lookupOk && a.putOk
    && (a.w in s.standbys[a.policy.value].duties ==> s.standbys[a.policy.value].duties[a.w].state.Armed?)
  }

  /** A due push whose hold is taken leaves the duty it asks for on that standby; one that is not leaves the duties as they are. */
  lemma PushHolds(s: System, a: Action)
    requires a.Push? && Due(s.ledger, a)
    ensures var (u, t) := (a.policy.value, PushStep(s, a));
            && (Taken(s, a) ==> a.w in t.standbys[u].duties && Standby.HoldWritten(SessionOf(s.me, s.advertised, a.w, a.root, a.keepLast), t.standbys[u].duties[a.w]))
            && (!Taken(s, a) ==> t.standbys == s.standbys)
            && t.pending == (if a.hold.Late? then s.pending + multiset{Pending(u, a.w, a.root.value, a.keepLast)} else s.pending)
  {
    if !Taken(s, a) && a.policy.value in s.standbys {
      assert s.standbys[a.policy.value := s.standbys[a.policy.value]] == s.standbys;
    }
  }

  /** A due push is in the ledger if it was confirmed and that write worked; otherwise, if it can be, as failing on what was there. */
  lemma PushIsRecorded(s: System, a: Action)
    requires a.Push? && Due(s.ledger, a)
    ensures var before := if a.w in s.ledger then s.ledger[a.w].checkpoint else None;
            PushStep(s, a).ledger ==
              if ConfirmationReadsHeld(s, a) && a.firstOk then s.ledger[a.w := Entry(a.policy.value, a.root, false)]
              else if a.secondOk then s.ledger[a.w := Entry(a.policy.value, before, true)] else s.ledger
  {
  }

  /** The hold and its confirmation are answered, and the session was not degraded for want of a duty write. */
  predicate ConfirmationReadsHeld(s: System, a: Action)
    requires a.Push?
  {
    && a.policy.Some? && a.policy.value in s.standbys && a.hold.AtCall? && a.heard
    && (a.putOk || !a.degradeOk || !a.lookupOk || Standby.IsFailedOver(s.standbys[a.policy.value], a.w))
  }

  /** A hold that lands late is taken, or not, as one during its call would be, and lands once. */
  lemma LateHoldHolds(s: System, a: Action)
    requires a.LateHold? && a.late in s.pending && a.late.at in s.standbys
    ensures var (u, w, t) := (a.late.at, a.late.w, LateStep(s, a));
            var taken := a.lookupOk && a.putOk && (w in s.standbys[u].duties ==> s.standbys[u].duties[w].state.Armed?);
            && t.ledger == s.ledger && t.pending == s.pending - multiset{a.late}
            && (taken ==> w in t.standbys[u].duties
                          && Standby.HoldWritten(SessionOf(s.me, s.advertised, w, Some(a.late.checkpoint), a.late.keepLast), t.standbys[u].duties[w]))
            && (!taken ==> t.standbys == s.standbys)
  {
    assert s.standbys[a.late.at := s.standbys[a.late.at]] == s.standbys;
  }

  /** Neither touches another workload's entry or duty. */
  lemma OthersUntouched(s: System, a: Action, w: Workload, u: URL)
    requires (a.Withdraw? || a.Push?) && a.w != w && u in s.standbys
    ensures var t := Step(s, a);
            && (w in t.ledger <==> w in s.ledger) && (w in s.ledger ==> t.ledger[w] == s.ledger[w])
            && t.standbys.Keys == s.standbys.Keys
            && (w in t.standbys[u].duties <==> w in s.standbys[u].duties)
            && (w in s.standbys[u].duties ==> t.standbys[u].duties[w] == s.standbys[u].duties[w])
  {
  }

  // ---------------------------------------------------------------- the replicator

  class Replicator {
    const me: Standby.Machine
    const advertised: string
    var ledger: map<Workload, Entry>
    var standbys: map<URL, Standby.Store>
    var pending: multiset<Pending>
    ghost var stored: set<(URL, Workload, Checkpoint)>

    ghost function View(): System
      reads this
    {
      System(me, advertised, ledger, standbys, pending, stored)
    }

    constructor (id: Standby.Machine, url: string, entries: map<Workload, Entry>, peers: map<URL, Standby.Store>)
      ensures View() == System(id, url, entries, peers, multiset{}, {})
    {
      me, advertised, ledger, standbys, pending, stored := id, url, entries, peers, multiset{}, {};
    }

    /** One entry of reconcileWithdrawals. */
    method WithdrawOne(a: Action)
      requires a.Withdraw?
      modifies this`ledger, this`standbys
      ensures View() == WithdrawStep(old(View()), a)
      ensures a.w !in old(ledger) ==> View() == old(View())
      ensures a.w in old(ledger) && (a.spec.Unreadable? || a.spec == Policy(Some(old(ledger)[a.w].standby))) ==> View() == old(View())
    {
      if a.w !in ledger { return; }
      var entry := ledger[a.w];
      if !Stale(a.spec, entry) { return; }
      if entry.failing && !a.due { return; }
      var answered := a.call.Answered? && entry.standby in standbys;
      if entry.standby in standbys && (answered || a.call.applied) {
        var remote := Standby.Withdraw(standbys[entry.standby], me, a.w, a.lookupOk, a.deleteOk);
        standbys := standbys[entry.standby := remote];
      }
      if !answered {
        if a.ledgerOk { ledger := ledger[a.w := entry.(failing := true)]; }
        return;
      }
      if a.ledgerOk { ledger := ledger - {a.w}; }
    }

    /** The hold and its confirmation; returns whether the stored session still read HELD. */
    method HoldAndConfirm(u: URL, a: Action) returns (held: bool)
      requires a.Push? && u in standbys
      modifies this`standbys, this`stored
      ensures held <==> a.heard && Standby.SessionAfterHold(old(standbys)[u], SessionOf(me, advertised, a.w, a.root, a.keepLast), a.lookupOk, a.putOk, a.degradeOk).Held?
      ensures standbys == old(standbys)[u := Standby.Hold(old(standbys)[u], SessionOf(me, advertised, a.w, a.root, a.keepLast), a.now, a.lookupOk, a.putOk)]
      ensures stored == if Standby.Accepts(old(standbys)[u], SessionOf(me, advertised, a.w, a.root, a.keepLast), a.lookupOk) && a.putOk
                        then old(stored) + {(u, a.w, a.root.value)} else old(stored)
    {
      var session := Standby.Session(true, Standby.Held, me, a.w, a.root, advertised, a.keepLast);
      var after := Standby.SessionAfterHold(standbys[u], session, a.lookupOk, a.putOk, a.degradeOk);
      if Standby.Accepts(standbys[u], session, a.lookupOk) && a.putOk { stored := stored + {(u, a.w, a.root.value)}; }
      standbys := standbys[u := Standby.Hold(standbys[u], session, a.now, a.lookupOk, a.putOk)];
      return a.heard && after.Held?;
    }

    /** One workload of replicateDue: reserve to hold, confirm, then the ledger. */
    method PushOne(a: Action)
      requires a.Push?
      modifies this`ledger, this`standbys, this`pending, this`stored
      ensures View() == PushStep(old(View()), a)
      ensures !Due(old(ledger), a) ==> View() == old(View())
    {
      if a.policy.None? || a.migrating || a.root.None? || !a.readable { return; }
      var u := a.policy.value;
      var entry := Entry(u, None, false);
      if a.w in ledger {
        entry := ledger[a.w];
        if entry.standby == u && entry.checkpoint == a.root { return; }
        if entry.standby != u { return; }
        if entry.failing && !a.due { return; }
      }
      assert PushRuns(View(), a);
      var held := false;
      if a.hold.AtCall? && u in standbys { held := HoldAndConfirm(u, a); }
      if a.hold.Late? { pending := pending + multiset{Pending(u, a.w, a.root.value, a.keepLast)}; }
      if held && a.firstOk {
        ledger := ledger[a.w := Entry(u, a.root, false)];
      } else if a.secondOk {
        ledger := ledger[a.w := Entry(u, entry.checkpoint, true)];
      }
    }

    /** A hold whose call gave up reaches the standby's duty record after all. */
    method LandLate(a: Action)
      requires a.LateHold?
      modifies this`standbys, this`pending, this`stored
      ensures View() == LateStep(old(View()), a)
    {
      if a.late !in pending || a.late.at !in standbys { return; }
      var session := SessionOf(me, advertised, a.late.w, Some(a.late.checkpoint), a.late.keepLast);
      if Standby.Accepts(standbys[a.late.at], session, a.lookupOk) && a.putOk {
        stored := stored + {(a.late.at, a.late.w, a.late.checkpoint)};
      }
      standbys := standbys[a.late.at := Standby.Hold(standbys[a.late.at], session, a.now, a.lookupOk, a.putOk)];
      pending := pending - multiset{a.late};
    }

    /** The entries of reconcileWithdrawals in turn; late holds may land between any two. */
    method ReconcileWithdrawals(withdrawals: seq<Action>)
      requires forall a <- withdrawals :: a.Withdraw? || a.LateHold?
      modifies this`ledger, this`standbys, this`pending, this`stored
      ensures View() == Exec(old(View()), withdrawals)
    {
      for i := 0 to |withdrawals|
        invariant View() == Exec(old(View()), withdrawals[..i])
      {
        assert withdrawals[i] in withdrawals;
        ExecStep(old(View()), withdrawals, i);
        if withdrawals[i].Withdraw? { WithdrawOne(withdrawals[i]); } else { LandLate(withdrawals[i]); }
      }
      assert withdrawals[..|withdrawals|] == withdrawals;
    }

    /** The workloads of replicateDue in turn; late holds may land between any two. */
    method ReplicateDue(pushes: seq<Action>)
      requires forall a <- pushes :: a.Push? || a.LateHold?
      modifies this`ledger, this`standbys, this`pending, this`stored
      ensures View() == Exec(old(View()), pushes)
    {
      for i := 0 to |pushes|
        invariant View() == Exec(old(View()), pushes[..i])
      {
        assert pushes[i] in pushes;
        ExecStep(old(View()), pushes, i);
        if pushes[i].Push? { PushOne(pushes[i]); } else { LandLate(pushes[i]); }
      }
      assert pushes[..|pushes|] == pushes;
    }

    /** One replication pass: withdrawals, then due pushes. A pass that strands nothing orphans nothing. */
    method Pass(withdrawals: seq<Action>, pushes: seq<Action>)
      requires forall a <- withdrawals :: a.Withdraw? || a.LateHold?
      requires forall a <- pushes :: a.Push? || a.LateHold?
      modifies this`ledger, this`standbys, this`pending, this`stored
      ensures View() == Exec(old(View()), withdrawals + pushes)
      ensures old(NoOrphan(View())) && NeverStrands(old(View()), withdrawals + pushes) ==> NoOrphan(View())
    {
      ghost var before := View();
      ReconcileWithdrawals(withdrawals);
      ReplicateDue(pushes);
      ExecConcat(before, withdrawals, pushes);
      if NoOrphan(before) && NeverStrands(before, withdrawals + pushes) {
        NoOrphanUpTo(before, withdrawals + pushes, |withdrawals + pushes|);
        assert (withdrawals + pushes)[..|withdrawals + pushes|] == withdrawals + pushes;
      }
    }
  }
}
