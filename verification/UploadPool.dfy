/**
 uploadChunks of internal/agent/replicate.go in every interleaving: a producer hands chunk indices to a
 bounded set of workers over an unbuffered channel, each worker uploads with retries and reports over a
 buffered channel, and the collector counts successes and stops at the first error.
 */
module UploadPool {
  datatype Worker =
    | Waiting                       // ranging over jobs
    | Uploading(i: nat, left: nat)  // an attempt runs, this many more may follow
    | Reporting(i: nat)             // uploaded; sending the success or seeing the cancelled context
    | Erring                        // gave up; sending the error
    | Gone

  datatype Result = Success(i: nat) | Failure

  datatype Outcome = Collecting | Returned(ok: bool)

  datatype Event =
    | Hand(k: nat) | CloseJobs | Attempt(k: nat, ok: bool) | Report(k: nat) | Drop(k: nat) | ReportError(k: nat)
    | Finish(k: nat) | Collect | Exit | Cancel

  /** Where an index that was handed out is now. */
  datatype Place = Held(k: nat) | Queued | Counted | Lost

  /** place follows every index handed out; uploaded is what really reached the standby. */
  datatype Pool = Pool(
    total: nat, next: nat, closed: bool, cancelled: bool, workers: seq<Worker>,
    results: seq<Result>, capacity: nat, completed: nat, outcome: Outcome,
    place: seq<Place>, uploaded: set<nat>)

  /** The source starts min(4, total) workers and as many result slots, for a non-empty list of chunks. */
  function Start(total: nat): Pool {
    var n := if total < 4 then total else 4;
    Pool(total, 0, false, false, seq(n, _ => Waiting), [], n, 0, Collecting, [], {})
  }

  function Put(p: Pool, k: nat, w: Worker): Pool
    requires k < |p.workers|
  {
    p.(workers := p.workers[k := w])
  }

  predicate Room(p: Pool) {
    |p.results| < p.capacity
  }

  function Move(p: Pool, i: nat, at: Place): Pool {
    if i < |p.place| then p.(place := p.place[i := at]) else p
  }

  /** The worker holds an index whose upload has not been reported. */
  predicate Holds(w: Worker) {
    w.Uploading? || w.Reporting?
  }

  function Work(p: Pool, k: nat, ok: bool): Pool
    requires k < |p.workers| && p.workers[k].Uploading?
  {
    var w := p.workers[k];
    if ok then Put(p, k, Reporting(w.i)).(uploaded := p.uploaded + {w.i})
    else if w.left > 0 && !p.cancelled then Put(p, k, Uploading(w.i, w.left - 1))
    else Move(Put(p, k, Erring), w.i, Lost)
  }

  function HandTo(p: Pool, k: nat): Pool
    requires k < |p.workers|
  {
    Put(p, k, Uploading(p.next, 2)).(next := p.next + 1, place := p.place + [Held(k)])
  }

  function Send(p: Pool, k: nat): Pool
    requires k < |p.workers| && p.workers[k].Reporting?
  {
    Move(Put(p, k, Waiting).(results := p.results + [Success(p.workers[k].i)]), p.workers[k].i, Queued)
  }

  function Abandon(p: Pool, k: nat): Pool
    requires k < |p.workers| && p.workers[k].Reporting?
  {
    Move(Put(p, k, Gone), p.workers[k].i, Lost)
  }

  function Gather(p: Pool): Pool
    requires p.results != []
  {
    var rest := p.(results := p.results[1..]);
    if p.results[0].Failure? then rest.(cancelled := true, outcome := Returned(false))
    else Move(rest.(completed := p.completed + 1), p.results[0].i, Counted)
  }

  function Step(p: Pool, e: Event): Pool {
    match e
    case Hand(k) =>
      if k < |p.workers| && p.workers[k].Waiting? && !p.closed && p.next < p.total
      then HandTo(p, k) else p
    case CloseJobs => if p.next == p.total || p.cancelled then p.(closed := true) else p
    case Attempt(k, ok) => if k < |p.workers| && p.workers[k].Uploading? then Work(p, k, ok) else p
    case Report(k) => if k < |p.workers| && p.workers[k].Reporting? && Room(p) then Send(p, k) else p
    case Drop(k) => if k < |p.workers| && p.workers[k].Reporting? && p.cancelled then Abandon(p, k) else p
    case ReportError(k) =>
      if k < |p.workers| && p.workers[k].Erring? && Room(p) then Put(p, k, Gone).(results := p.results + [Failure]) else p
    case Finish(k) => if k < |p.workers| && p.workers[k].Waiting? && p.closed then Put(p, k, Gone) else p
    case Collect => if p.outcome.Returned? || p.results == [] then p else Gather(p)
    case Exit =>
      if p.outcome.Returned? || p.results != [] || exists w <- p.workers :: !w.Gone? then p
      else p.(outcome := Returned(!p.cancelled && p.completed == p.total))
    case Cancel => p.(cancelled := true)
  }

  function Exec(p: Pool, run: seq<Event>): Pool {
    if run == [] then p else Step(Exec(p, run[..|run| - 1]), run[|run| - 1])
  }

  // ---------------------------------------------------------------- where every index is

  /** How many indices were counted. */
  function Tally(place: seq<Place>): nat {
    if place == [] then 0 else Tally(place[..|place| - 1]) + if place[|place| - 1].Counted? then 1 else 0
  }

  lemma {:induction false} TallyMove(place: seq<Place>, i: nat, at: Place)
    requires i < |place|
    ensures Tally(place[i := at]) == Tally(place) - (if place[i].Counted? then 1 else 0) + (if at.Counted? then 1 else 0)
  {
    var n := |place| - 1;
    if i == n {
      assert place[i := at][..n] == place[..n];
    } else {
      assert place[i := at][..n] == place[..n][i := at];
      TallyMove(place[..n], i, at);
    }
  }

  lemma {:induction false} TallyAll(place: seq<Place>)
    ensures Tally(place) <= |place|
    ensures Tally(place) == |place| <==> forall i | 0 <= i < |place| :: place[i].Counted?
  {
    if place != [] { TallyAll(place[..|place| - 1]); }
  }

  /** Every index is in one place, and whatever claims success was uploaded. */
  ghost predicate Tidy(p: Pool) {
    && |p.place| == p.next <= p.total
    && (forall k | 0 <= k < |p.workers| && Holds(p.workers[k]) :: p.workers[k].i < p.next && p.place[p.workers[k].i] == Held(k))
    && (forall k | 0 <= k < |p.workers| && p.workers[k].Reporting? :: p.workers[k].i in p.uploaded)
    && (forall j | 0 <= j < |p.results| && p.results[j].Success? :: p.results[j].i < p.next && p.place[p.results[j].i].Queued?)
    && (forall j, l | 0 <= j < l < |p.results| && p.results[j].Success? && p.results[l].Success? :: p.results[j].i != p.results[l].i)
    && (forall i | 0 <= i < p.next && (p.place[i].Queued? || p.place[i].Counted?) :: i in p.uploaded)
    && p.completed == Tally(p.place)
    && (p.outcome == Returned(true) ==> p.completed == p.total)
  }

  /** A failure is pending: it will be collected before the results run out. */
  ghost predicate Failing(p: Pool) {
    Failure in p.results || Erring in p.workers
  }

  /** Unless cancelled or failing, no index is lost, and workers leave only when all were handed out. */
  ghost predicate Accounted(p: Pool) {
    !p.cancelled && !Failing(p) ==>
      && (forall i | 0 <= i < |p.place| :: !p.place[i].Lost?)
      && (forall i | 0 <= i < |p.place| && p.place[i].Held? ::
            p.place[i].k < |p.workers| && Holds(p.workers[p.place[i].k]) && p.workers[p.place[i].k].i == i)
      && (forall i | 0 <= i < |p.place| && p.place[i].Queued? :: Success(i) in p.results)
      && (p.closed ==> p.next == p.total)
      && (Gone in p.workers ==> p.closed)
  }

  lemma TidyHand(p: Pool, k: nat)
    requires Tidy(p) && k < |p.workers| && p.workers[k].Waiting? && p.next < p.total
    ensures Tidy(HandTo(p, k))
  {
    assert HandTo(p, k).place[..|p.place|] == p.place;
  }

  lemma TidyWork(p: Pool, k: nat, ok: bool)
    requires Tidy(p) && k < |p.workers| && p.workers[k].Uploading?
    ensures Tidy(Work(p, k, ok))
  {
    var w := p.workers[k];
    if ok {
      TidyRelabel(p, k, Reporting(w.i), p.uploaded + {w.i});
    } else if w.left > 0 && !p.cancelled {
      TidyRelabel(p, k, Uploading(w.i, w.left - 1), p.uploaded);
    } else {
      TallyMove(p.place, w.i, Lost);
    }
  }

  /** A worker keeps its index and goes on with it. */
  lemma TidyRelabel(p: Pool, k: nat, w: Worker, uploaded: set<nat>)
    requires Tidy(p) && k < |p.workers| && Holds(p.workers[k]) && Holds(w) && w.i == p.workers[k].i
    requires p.uploaded <= uploaded && (w.Reporting? ==> w.i in uploaded)
    ensures Tidy(Put(p, k, w).(uploaded := uploaded))
  {
  }

  lemma TidySend(p: Pool, k: nat)
    requires Tidy(p) && k < |p.workers| && p.workers[k].Reporting?
    ensures Tidy(Send(p, k))
  {
    TallyMove(p.place, p.workers[k].i, Queued);
  }

  lemma TidyAbandon(p: Pool, k: nat)
    requires Tidy(p) && k < |p.workers| && p.workers[k].Reporting?
    ensures Tidy(Abandon(p, k))
  {
    TallyMove(p.place, p.workers[k].i, Lost);
  }

  lemma TidyGather(p: Pool)
    requires Tidy(p) && p.results != [] && p.outcome.Collecting?
    ensures Tidy(Gather(p))
  {
    var q := Gather(p);
    forall j | 0 <= j < |q.results| ensures q.results[j] == p.results[j + 1] {}
    if p.results[0].Success? { TallyMove(p.place, p.results[0].i, Counted); }
  }

  lemma TidyRetire(p: Pool, k: nat, results: seq<Result>)
    requires Tidy(p) && k < |p.workers| && (results == p.results || results == p.results + [Failure])
    ensures Tidy(Put(p, k, Gone).(results := results))
  {
  }

  lemma TidyStep(p: Pool, e: Event)
    requires Tidy(p)
    ensures Tidy(Step(p, e))
  {
    var q := Step(p, e);
    match e {
      case Hand(k) => if q != p { TidyHand(p, k); }
      case Attempt(k, ok) => if q != p { TidyWork(p, k, ok); }
      case Report(k) => if q != p { TidySend(p, k); }
      case Drop(k) => if q != p { TidyAbandon(p, k); }
      case ReportError(k) => if q != p { TidyRetire(p, k, p.results + [Failure]); }
      case Finish(k) => if q != p { TidyRetire(p, k, p.results); }
      case Collect => if q != p { TidyGather(p); }
      case _ =>
    }
  }

  // ---------------------------------------------------------------- no false alarm

  lemma FailingStays(p: Pool, e: Event)
    requires Failing(p) && !Step(p, e).cancelled
    ensures Failing(Step(p, e))
  {
    var q := Step(p, e);
    if Erring in p.workers {
      var k :| 0 <= k < |p.workers| && p.workers[k] == Erring;
      ErringStays(p, e, k);
      if q.workers[k] == Erring { assert Erring in q.workers; }
    } else {
      var j :| 0 <= j < |p.results| && p.results[j] == Failure;
      ResultStays(p, e, j);
    }
  }

  /** A worker that gave up stays so until its error is among the results. */
  lemma ErringStays(p: Pool, e: Event, k: nat)
    requires k < |p.workers| && p.workers[k] == Erring
    ensures |Step(p, e).workers| == |p.workers|
    ensures Step(p, e).workers[k] == Erring || Failure in Step(p, e).results
  {
    if e == ReportError(k) && Room(p) { assert Step(p, e).results[|p.results|] == Failure; }
  }

  lemma ResultStays(p: Pool, e: Event, j: nat)
    requires j < |p.results| && p.results[j] == Failure && !Step(p, e).cancelled
    ensures Failure in Step(p, e).results
  {
    var q := Step(p, e);
    if e.Collect? && q != p { assert q.results[j - 1] == Failure; } else { assert q.results[j] == Failure; }
  }

  lemma AccountedHand(p: Pool, k: nat)
    requires Tidy(p) && Accounted(p) && k < |p.workers| && p.workers[k].Waiting? && p.next < p.total && !p.closed
    requires !p.cancelled && !Failing(p)
    ensures Accounted(HandTo(p, k))
  {
  }

  lemma AccountedSend(p: Pool, k: nat)
    requires Tidy(p) && Accounted(p) && k < |p.workers| && p.workers[k].Reporting?
    requires !p.cancelled && !Failing(p)
    ensures Accounted(Send(p, k))
  {
    var q := Send(p, k);
    assert q.results[|p.results|] == Success(p.workers[k].i);
    forall i | 0 <= i < |q.place| && q.place[i].Queued? ensures Success(i) in q.results {
      if i != p.workers[k].i {
        assert Success(i) in p.results;
        var j :| 0 <= j < |p.results| && p.results[j] == Success(i);
        assert q.results[j] == Success(i);
      }
    }
  }

  lemma AccountedGather(p: Pool)
    requires Tidy(p) && Accounted(p) && p.results != [] && p.results[0].Success?
    requires !p.cancelled && !Failing(p)
    ensures Accounted(Gather(p))
  {
    var q := Gather(p);
    forall i | 0 <= i < |q.place| && q.place[i].Queued? ensures Success(i) in q.results {
      var j :| 0 <= j < |p.results| && p.results[j] == Success(i);
      assert j > 0 && q.results[j - 1] == Success(i);
    }
  }

  lemma AccountedWork(p: Pool, k: nat, ok: bool)
    requires Tidy(p) && Accounted(p) && k < |p.workers| && p.workers[k].Uploading?
    requires !p.cancelled && !Failing(p)
    ensures Accounted(Work(p, k, ok))
  {
    var q := Work(p, k, ok);
    if q.workers[k].Erring? { assert Erring in q.workers; }
  }

  lemma AccountedFinish(p: Pool, k: nat)
    requires Tidy(p) && Accounted(p) && k < |p.workers| && p.workers[k].Waiting? && p.closed
    requires !p.cancelled && !Failing(p)
    ensures Accounted(Put(p, k, Gone))
  {
  }

  lemma AccountedStep(p: Pool, e: Event)
    requires Tidy(p) && Accounted(p)
    ensures Accounted(Step(p, e))
  {
    var q := Step(p, e);
    if q != p && !q.cancelled {
      if Failing(p) {
        FailingStays(p, e);
      } else {
        match e {
          case Hand(k) => AccountedHand(p, k);
          case Attempt(k, ok) => AccountedWork(p, k, ok);
          case Report(k) => AccountedSend(p, k);
          case ReportError(k) => assert q.results[|p.results|] == Failure;
          case Finish(k) => AccountedFinish(p, k);
          case Collect => AccountedGather(p);
          case _ =>
        }
      }
    }
  }

  ghost predicate Sound(p: Pool, total: nat, workers: nat) {
    Tidy(p) && Accounted(p) && p.total == total && |p.workers| == workers
  }

  lemma SizesKept(p: Pool, e: Event)
    ensures Step(p, e).total == p.total && |Step(p, e).workers| == |p.workers|
  {
  }

  lemma SoundStep(p: Pool, e: Event, total: nat, workers: nat)
    requires Sound(p, total, workers)
    ensures Sound(Step(p, e), total, workers)
  {
    SizesKept(p, e);
    TidyStep(p, e);
    AccountedStep(p, e);
  }

  lemma {:induction false} SoundAlways(p: Pool, run: seq<Event>, total: nat, workers: nat)
    requires Sound(p, total, workers)
    ensures Sound(Exec(p, run), total, workers)
  {
    if run != [] {
      SoundAlways(p, run[..|run| - 1], total, workers);
      SoundStep(Exec(p, run[..|run| - 1]), run[|run| - 1], total, workers);
    }
  }

  lemma StartIsSound(total: nat)
    ensures Sound(Start(total), total, if total < 4 then total else 4)
  {
  }

  // ---------------------------------------------------------------- attempts

  /** The event is an attempt at index i, and this is how it went. */
  predicate Tries(p: Pool, e: Event, i: nat, ok: bool) {
    && e.Attempt? && e.ok == ok && e.k < |p.workers| && p.workers[e.k].Uploading? && p.workers[e.k].i == i
  }

  /** An attempt at index i in this run went through. */
  ghost predicate Sent(start: Pool, run: seq<Event>, i: nat) {
    exists j | 0 <= j < |run| :: Tries(Exec(start, run[..j]), run[j], i, true)
  }

  lemma UploadedStep(p: Pool, e: Event, i: nat)
    requires i in Step(p, e).uploaded && i !in p.uploaded
    ensures Tries(p, e, i, true)
  {
  }

  /** Nothing counts as uploaded but what an attempt got through. */
  lemma {:induction false} UploadedWasSent(start: Pool, run: seq<Event>, i: nat)
    requires start.uploaded == {} && i in Exec(start, run).uploaded
    ensures Sent(start, run, i)
  {
    if run != [] {
      var n := |run| - 1;
      if i in Exec(start, run[..n]).uploaded {
        UploadedWasSent(start, run[..n], i);
        var j :| 0 <= j < n && Tries(Exec(start, run[..n][..j]), run[..n][j], i, true);
        assert run[..n][..j] == run[..j];
        assert Tries(Exec(start, run[..j]), run[j], i, true);
      } else {
        UploadedStep(Exec(start, run[..n]), run[n], i);
        assert Tries(Exec(start, run[..n]), run[n], i, true);
      }
    }
  }

  /** How many attempts at index i failed. */
  function Misses(start: Pool, run: seq<Event>, i: nat): nat {
    if run == [] then 0
    else
      var n := |run| - 1;
      Misses(start, run[..n], i) + if Tries(Exec(start, run[..n]), run[n], i, false) then 1 else 0
  }

  /** Where an index with this many failed attempts may be. */
  ghost predicate Missed(p: Pool, i: nat, n: nat) {
    && n <= 3 && (i >= p.next ==> n == 0)
    && (forall k | 0 <= k < |p.workers| && Holds(p.workers[k]) && p.workers[k].i == i ::
          n <= 2 && (p.workers[k].Uploading? ==> n + p.workers[k].left == 2))
    && (i < |p.place| && (p.place[i].Queued? || p.place[i].Counted?) ==> n <= 2)
    && (i < |p.place| && p.place[i].Lost? && !p.cancelled ==> n == 3)
  }

  lemma MissedWork(p: Pool, k: nat, ok: bool, i: nat, n: nat)
    requires Tidy(p) && Missed(p, i, n) && k < |p.workers| && p.workers[k].Uploading?
    ensures Missed(Work(p, k, ok), i, n + if !ok && p.workers[k].i == i then 1 else 0)
  {
    assert forall j | 0 <= j < |p.workers| && Holds(p.workers[j]) && p.workers[j].i == p.workers[k].i :: j == k;
  }

  lemma MissedHand(p: Pool, k: nat, i: nat, n: nat)
    requires Tidy(p) && Missed(p, i, n) && k < |p.workers| && p.workers[k].Waiting?
    ensures Missed(HandTo(p, k), i, n)
  {
  }

  lemma MissedElse(p: Pool, e: Event, i: nat, n: nat)
    requires Tidy(p) && Missed(p, i, n) && !e.Attempt? && !e.Hand?
    ensures Missed(Step(p, e), i, n)
  {
  }

  lemma MissedStep(p: Pool, e: Event, i: nat, n: nat)
    requires Tidy(p) && Missed(p, i, n)
    ensures Missed(Step(p, e), i, n + if Tries(p, e, i, false) then 1 else 0)
  {
    if e.Attempt? {
      if e.k < |p.workers| && p.workers[e.k].Uploading? { MissedWork(p, e.k, e.ok, i, n); }
    } else if e.Hand? {
      if Step(p, e) != p { MissedHand(p, e.k, i, n); }
    } else {
      MissedElse(p, e, i, n);
    }
  }

  /** An index is tried at most three times in vain, and given up only after the third unless the call was cancelled. */
  lemma {:induction false} ThreeAttempts(total: nat, run: seq<Event>, i: nat)
    ensures Missed(Exec(Start(total), run), i, Misses(Start(total), run, i))
  {
    if run != [] {
      var n := |run| - 1;
      ThreeAttempts(total, run[..n], i);
      StartIsSound(total);
      SoundAlways(Start(total), run[..n], total, if total < 4 then total else 4);
      MissedStep(Exec(Start(total), run[..n]), run[n], i, Misses(Start(total), run[..n], i));
    }
  }

  /** After a failed attempt the worker gives the index up if and only if the call was cancelled or it was the third in vain. */
  lemma GivesUpIff(total: nat, run: seq<Event>, i: nat)
    requires run != [] && Tries(Exec(Start(total), run[..|run| - 1]), run[|run| - 1], i, false)
    ensures var (before, k) := (Exec(Start(total), run[..|run| - 1]), run[|run| - 1].k);
            && k < |Exec(Start(total), run).workers|
            && (Exec(Start(total), run).workers[k].Erring? <==> before.cancelled || Misses(Start(total), run, i) == 3)
            && (!Exec(Start(total), run).workers[k].Erring? ==>
                  Exec(Start(total), run).workers[k].Uploading? && Exec(Start(total), run).workers[k].i == i)
  {
    ThreeAttempts(total, run[..|run| - 1], i);
  }

  // ---------------------------------------------------------------- what the call returns

  /** In every interleaving, uploadChunks returns nil only if an attempt at every requested chunk went through. */
  lemma NilMeansAllUploaded(total: nat, run: seq<Event>)
    requires Exec(Start(total), run).outcome == Returned(true)
    ensures forall i: nat | i < total :: i in Exec(Start(total), run).uploaded && Sent(Start(total), run, i)
  {
    forall i: nat | i in Exec(Start(total), run).uploaded ensures Sent(Start(total), run, i) { UploadedWasSent(Start(total), run, i); }
    StartIsSound(total);
    SoundAlways(Start(total), run, total, if total < 4 then total else 4);
    TallyAll(Exec(Start(total), run).place);
  }

  /** When the results run out, the call fails only because its context was cancelled: the count is never short. */
  lemma ExitIff(total: nat, run: seq<Event>)
    requires total > 0
    requires var p := Exec(Start(total), run);
             p.outcome.Collecting? && p.results == [] && forall w <- p.workers :: w.Gone?
    ensures Step(Exec(Start(total), run), Exit).outcome == Returned(!Exec(Start(total), run).cancelled)
  {
    var p := Exec(Start(total), run);
    StartIsSound(total);
    SoundAlways(Start(total), run, total, if total < 4 then total else 4);
    TallyAll(p.place);
    forall k | 0 <= k < |p.workers| ensures p.workers[k].Gone? { assert p.workers[k] in p.workers; }
    assert p.workers[0].Gone?;
  }
}
