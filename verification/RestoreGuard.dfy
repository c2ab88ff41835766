/**
 The per-root guard of internal/checkpoint/restore.go: beginRestore claims a target root, endRestore
 releases it and carries no owner. A failed Prepare releases twice, once inside rollback and once in
 its own deferred call, so a release can arrive from a transaction that no longer holds the root.
 */
module RestoreGuard {
  type Transaction = nat
  type Root = nat

  datatype Event = Begin(who: Transaction) | End(who: Transaction)

  /** The guard's map beside the transactions that believe they hold their root. */
  datatype State = State(inFlight: set<Root>, open: set<Transaction>)

  const INITIAL := State({}, {})

  function Step(rootOf: Transaction -> Root, s: State, e: Event): State {
    match e
    case Begin(t) =>
      if t in s.open || rootOf(t) in s.inFlight then s else State(s.inFlight + {rootOf(t)}, s.open + {t})
    case End(t) => State(s.inFlight - {rootOf(t)}, s.open - {t})
  }

  /** One transaction per root, and the map holds exactly the roots of open transactions. */
  ghost predicate Exclusive(rootOf: Transaction -> Root, s: State) {
    && (forall t, u | t in s.open && u in s.open && rootOf(t) == rootOf(u) :: t == u)
    && s.inFlight == set t | t in s.open :: rootOf(t)
  }

  /** A release of a root some other open transaction holds. */
  ghost predicate Foreign(rootOf: Transaction -> Root, s: State, e: Event) {
    e.End? && exists t :: t in s.open && t != e.who && rootOf(t) == rootOf(e.who)
  }

  ghost predicate AlwaysExclusive(rootOf: Transaction -> Root, s: State, run: seq<Event>)
    decreases run
  {
    Exclusive(rootOf, s) && (run != [] ==> AlwaysExclusive(rootOf, Step(rootOf, s, run[0]), run[1..]))
  }

  ghost predicate OwnersRelease(rootOf: Transaction -> Root, s: State, run: seq<Event>)
    decreases run
  {
    run != [] ==> !Foreign(rootOf, s, run[0]) && OwnersRelease(rootOf, Step(rootOf, s, run[0]), run[1..])
  }

  lemma StepExclusiveIff(rootOf: Transaction -> Root, s: State, e: Event)
    requires Exclusive(rootOf, s)
    ensures Exclusive(rootOf, Step(rootOf, s, e)) <==> !Foreign(rootOf, s, e)
  {
    var next := Step(rootOf, s, e);
    if Foreign(rootOf, s, e) {
      var t :| t in s.open && t != e.who && rootOf(t) == rootOf(e.who);
      assert t in next.open && rootOf(t) !in next.inFlight;
    } else {
      assert next.inFlight == set t | t in next.open :: rootOf(t);
    }
  }

  /** In every run the guard excludes a second transaction at every point if and only if only owners release. */
  lemma {:induction false} ExclusiveIff(rootOf: Transaction -> Root, s: State, run: seq<Event>)
    requires Exclusive(rootOf, s)
    ensures AlwaysExclusive(rootOf, s, run) <==> OwnersRelease(rootOf, s, run)
    decreases run
  {
    if run != [] {
      StepExclusiveIff(rootOf, s, run[0]);
      if Exclusive(rootOf, Step(rootOf, s, run[0])) {
        ExclusiveIff(rootOf, Step(rootOf, s, run[0]), run[1..]);
      }
    }
  }

  /** The second release of a failed Prepare lets two transactions run over one root. */
  lemma DoubleReleaseAdmitsTwo()
    ensures var s := Step(_ => 7, Step(_ => 7, Step(_ => 7, Step(_ => 7, Step(_ => 7, INITIAL,
                Begin(1)), End(1)), Begin(2)), End(1)), Begin(3));
            s.open == {2, 3}
  {
  }

  class Guard {
    var inFlight: set<Root>

    constructor ()
      ensures inFlight == {}
    {
      inFlight := {};
    }

    /** Refused exactly when the root is claimed; refines Begin of a transaction that is not open. */
    method BeginRestore(root: Root) returns (ok: bool)
      modifies this
      ensures ok <==> root !in old(inFlight)
      ensures inFlight == old(inFlight) + {root}
      ensures forall rootOf: Transaction -> Root, t, open | rootOf(t) == root && t !in open ::
                inFlight == Step(rootOf, State(old(inFlight), open), Begin(t)).inFlight
    {
      if root in inFlight { return false; }
      inFlight := inFlight + {root};
      return true;
    }

    method EndRestore(root: Root)
      modifies this
      ensures inFlight == old(inFlight) - {root}
      ensures forall rootOf: Transaction -> Root, t, open | rootOf(t) == root ::
                inFlight == Step(rootOf, State(old(inFlight), open), End(t)).inFlight
    {
      inFlight := inFlight - {root};
    }
  }
}
