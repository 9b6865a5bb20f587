/**
 What a crash, a redelivery or a late click can and cannot do to a submission
 (scripts/commit-crash-run.ts, apps/worker/src/main.ts).
 */
module SubmissionRecovery {
  import opened Outcome
  import opened SubmissionDb
  import opened SubmissionProtocol

  lemma {:induction false} RunExtends(run: seq<World>, events: seq<Event>, m: nat, n: nat)
    requires IsRun(run, events) && m <= n < |run|
    ensures Extends(run[m].db, run[n].db) && run[m].employer <= run[n].employer
  {
    hide Step, WorldInv, Extends;
    if m == n {
      ExtendsRefl(run[m].db);
    } else {
      RunExtends(run, events, m, n - 1);
      RunKeepsInv(run, events, n - 1);
      StepProgresses(run[n - 1], events[n - 1]);
      ExtendsTrans(run[m].db, run[n - 1].db, run[n].db);
    }
  }

  /**
   Once one of its attempts has been dispatched, an application
   never gets another attempt, whatever is redelivered.
   */
  lemma DispatchIsFinal(run: seq<World>, events: seq<Event>, m: nat, n: nat, x: nat, y: nat)
    requires IsRun(run, events) && m <= n < |run|
    requires x < |run[m].db.attempts| && run[m].db.attempts[x].dispatched
    requires |run[m].db.attempts| <= y < |run[n].db.attempts|
    ensures run[n].db.attempts[y].app != run[m].db.attempts[x].app
  {
    hide Step;
    RunExtends(run, events, m, n);
    RunKeepsInv(run, events, n);
    assert Continues(run[m].db.attempts[x], run[n].db.attempts[x]);
  }

  /** A submit task is never leased for an application whose outcome is decided or in doubt, under any queue key. */
  lemma FinalIsNeverClaimed(db: Db, worker: WorkerId, kinds: set<Kind>, leaseMs: nat, concurrency: nat)
    requires Claim(db, worker, kinds, leaseMs, concurrency).1.Some?
    ensures var (d, lease) := Claim(db, worker, kinds, leaseMs, concurrency);
            && lease.value.task < |d.tasks|
            && (d.tasks[lease.value.task].kind == Submit && HasApp(d, lease.value.task) ==>
                  !Final(d.apps[d.tasks[lease.value.task].app.value].state))
  {
    hide RecoverExpired;
  }

  // ---- Reconciliation ----

  /** The single final action of application `a` is attempt `x`. */
  ghost predicate Actual(db: Db, a: AppId, x: nat) {
    x < |db.attempts| && db.attempts[x].app == a && db.attempts[x].state !in {Flying, Blocked}
  }

  ghost predicate HasRecord(w: World, a: AppId) {
    exists k :: 0 <= k < |w.employer| && w.employer[k].app == a
  }

  lemma ActualIsLatest(w: World, a: AppId, x: nat)
    requires WorldInv(w) && Actual(w.db, a, x)
    ensures Latest(w.db, a, |w.db.attempts|) == Option.Some(x)
  {
    var i := Latest(w.db, a, |w.db.attempts|).value;
    assert x <= i;
  }

  lemma UncertainHasNoReceipt(w: World, a: AppId, x: nat, record: nat)
    requires WorldInv(w) && Actual(w.db, a, x) && w.db.attempts[x].state == Uncertain && RecordFor(w, record, a)
    ensures !RecordUsed(w.db, record)
  {
    forall r | 0 <= r < |w.db.receipts|
      ensures w.db.receipts[r].record != record
    {
      assert RecordFor(w, w.db.receipts[r].record, w.db.receipts[r].app);
      AcceptedElsewhere(w, a, x, w.db.receipts[r].attempt);
    }
  }

  lemma AcceptedElsewhere(w: World, a: AppId, x: nat, i: nat)
    requires WorldInv(w) && Actual(w.db, a, x) && w.db.attempts[x].state == Uncertain
    requires i < |w.db.attempts| && w.db.attempts[i].state == Accepted
    ensures w.db.attempts[i].app != a
  {
    assert i < x || x < i;
  }

  /** Looking the application up and reconciling confirms it exactly when the employer holds its record. */
  lemma ReconciliationDecides(w: World, id: WorkerId, a: AppId, x: nat)
    requires WorldInv(w) && id in w.workers && w.workers[id].Holding?
    requires ValidLease(w.db, w.workers[id].lease, Reconcile)
             && w.db.tasks[w.workers[id].lease.task].app == Option.Some(a)
    requires a in w.db.apps && w.db.apps[a].state in {Unknown, NeedsReview}
    requires Actual(w.db, a, x) && w.db.attempts[x].state == Uncertain
    ensures var v := Step(Step(w, Observes(id, true)), Reconciles(id));
            && a in v.db.apps && id in v.workers && v.workers[id].Acknowledged?
            && v.db.apps[a].state == (if HasRecord(w, a) then Confirmed else NeedsReview)
            && |v.db.receipts| == |w.db.receipts| + (if HasRecord(w, a) then 1 else 0)
            && |v.db.attempts| == |w.db.attempts|
  {
    var found := RecordOf(w.employer, a, |w.employer|);
    assert HasRecord(w, a) <==> found.Some?;
    EvidenceUsable(w, a, x, found);
    hide WorldInv, RecordUsed;
    LookupThenReconcile(w, id, a);
    hide Step;
    assert ReconcileReceipt(w.db, w.workers[id].lease, found).Some?;
  }

  lemma LookupThenReconcile(w: World, id: WorkerId, a: AppId)
    requires id in w.workers && w.workers[id].Holding? && w.workers[id].lease.task < |w.db.tasks|
    requires w.db.tasks[w.workers[id].lease.task].app == Option.Some(a)
    ensures var l := w.workers[id].lease; var e := ReconcileReceipt(w.db, l, RecordOf(w.employer, a, |w.employer|));
            e.Some? ==> Step(Step(w, Observes(id, true)), Reconciles(id)) == Put(w, id, e.value, Acknowledged(l))
  {
    var l, found := w.workers[id].lease, RecordOf(w.employer, a, |w.employer|);
    hide ReconcileReceipt;
    var s := Step(w, Observes(id, true));
    assert s == Put(w, id, w.db, Observed(l, found));
    if ReconcileReceipt(w.db, l, found).Some? {
      var e := ReconcileReceipt(w.db, l, found).value;
      assert Step(s, Reconciles(id)) == Put(s, id, e, Acknowledged(l));
      assert s.workers[id := Acknowledged(l)] == w.workers[id := Acknowledged(l)];
    }
  }

  lemma EvidenceUsable(w: World, a: AppId, x: nat, found: Option<nat>)
    requires WorldInv(w) && Actual(w.db, a, x) && w.db.attempts[x].state == Uncertain
    requires found.Some? ==> RecordFor(w, found.value, a)
    ensures Latest(w.db, a, |w.db.attempts|) == Option.Some(x)
    ensures found.Some? ==> !RecordUsed(w.db, found.value)
  {
    ActualIsLatest(w, a, x);
    if found.Some? {
      UncertainHasNoReceipt(w, a, x, found.value);
    }
  }

  // ---- Late arrivals ----

  /** A worker that can still press the button for attempt `x`: with an unexpired permit, or past the expiry check. */
  ghost predicate CanPress(w: World, id: WorkerId, x: nat) {
    PermitFor(w, id, x) && (w.workers[id].Permitted? ==> w.workers[id].expires > w.db.now)
  }

  ghost predicate InFlightFor(w: World, r: Record, x: nat) {
    r in w.flight && r.attempt == x
  }

  /** Nobody can press for attempt `x` any more, and nothing sent for it is on its way. */
  ghost predicate Landed(w: World, x: nat) {
    (forall id :: !CanPress(w, id, x)) && forall r :: !InFlightFor(w, r, x)
  }

  function RunFrom(w: World, events: seq<Event>): World {
    if events == [] then w else Step(RunFrom(w, events[..|events| - 1]), events[|events| - 1])
  }

  lemma RecoverKeepsClock(d: Db, t: nat, cancelled: bool)
    requires t < |d.tasks|
    ensures Recover(d, t, cancelled).now == d.now
  {
  }

  lemma {:induction false} RecoveriesKeepClock(d: Db, n: nat)
    requires n <= |d.tasks|
    ensures RecoverExpired(d, n).now == d.now && RecoverSubmits(d, n).now == d.now
  {
    hide Recover;
    if n > 0 {
      RecoveriesKeepClock(d, n - 1);
      RecoverKeepsClock(RecoverExpired(d, n - 1), n - 1, false);
      RecoverKeepsClock(RecoverSubmits(d, n - 1), n - 1, true);
    }
  }

  lemma ClaimKeepsClock(d: Db, worker: WorkerId, kinds: set<Kind>, leaseMs: nat, concurrency: nat)
    ensures Claim(d, worker, kinds, leaseMs, concurrency).0.now == d.now
  {
    hide RecoverExpired;
    RecoveriesKeepClock(d, |d.tasks|);
  }

  /** A landed attempt that is decided or in doubt stays landed, and no record of it appears. */
  lemma StepStaysLanded(w: World, e: Event, x: nat)
    requires WorldInv(w) && x < |w.db.attempts| && w.db.attempts[x].state != Flying && Landed(w, x)
    ensures Landed(Step(w, e), x)
    ensures forall k :: |w.employer| <= k < |Step(w, e).employer| ==> Step(w, e).employer[k].attempt != x
  {
    hide WorldInv, RecoverExpired, RecoverSubmits, Recover, ReconcileReceipt, ConfirmReceipt, RecordRejection,
      AbortBeforeDispatch, Begin, Complete;
    var v := Step(w, e);
    assert v.db.now >= w.db.now by {
      StepKeepsClock(w, e);
    }
    forall id
      ensures !CanPress(v, id, x)
    {
      assert !CanPress(w, id, x);
    }
    forall r
      ensures !InFlightFor(v, r, x)
    {
      assert !InFlightFor(w, r, x);
      if e.Presses? && e.worker in w.workers {
        assert !CanPress(w, e.worker, x);
      }
    }
    if e.Arrives? {
      assert !InFlightFor(w, e.sent, x);
    }
  }

  lemma FailKeepsClock(w: World, e: Event)
    requires e.Fails?
    ensures Step(w, e).db.now == w.db.now
  {
    hide Recover;
    if e.worker in w.workers && w.workers[e.worker].lease.task < |w.db.tasks| {
      RecoverKeepsClock(w.db, w.workers[e.worker].lease.task, false);
    }
  }

  lemma StepKeepsClock(w: World, e: Event)
    ensures Step(w, e).db.now >= w.db.now
  {
    hide Claim, Recover, RecoverSubmits, Fail;
    match e
    case Controls(paused, stopped) =>
      RecoveriesKeepClock(w.db.(paused := paused, stopped := stopped), |w.db.tasks|);
    case Claims(id, kinds, leaseMs, concurrency) => ClaimKeepsClock(w.db, id, kinds, leaseMs, concurrency);
    case Cancels(t) =>
      if t < |w.db.tasks| {
        RecoverKeepsClock(w.db, t, true);
      }
    case Fails(id, _, _) =>
      FailKeepsClock(w, e);
    case _ =>
  }

  lemma {:induction false} RunFromKeeps(w: World, events: seq<Event>)
    requires WorldInv(w)
    ensures Progress(w, RunFrom(w, events))
  {
    hide Step;
    if events == [] {
      ExtendsRefl(w.db);
    } else {
      var rest := events[..|events| - 1];
      RunFromKeeps(w, rest);
      StepProgresses(RunFrom(w, rest), events[|events| - 1]);
      ExtendsTrans(w.db, RunFrom(w, rest).db, RunFrom(w, events).db);
    }
  }

  lemma NewRecordsAreOfAttempt(w: World, a: AppId, x: nat, k: nat)
    requires WorldInv(w) && Actual(w.db, a, x) && k < |w.employer| && w.employer[k].app == a
    ensures w.employer[k].attempt == x
  {
    var i := w.employer[k].attempt;
    assert w.db.attempts[i].app == a && w.db.attempts[i].dispatched;
    assert i < x || x < i || i == x;
  }

  lemma {:induction false} LandedStaysSilent(w: World, events: seq<Event>, a: AppId, x: nat)
    requires WorldInv(w) && Actual(w.db, a, x) && Landed(w, x) && !HasRecord(w, a)
    ensures var v := RunFrom(w, events); WorldInv(v) && Actual(v.db, a, x) && Landed(v, x) && !HasRecord(v, a)
  {
    hide Step, WorldInv;
    if events != [] {
      var rest, e := events[..|events| - 1], events[|events| - 1];
      LandedStaysSilent(w, rest, a, x);
      var u := RunFrom(w, rest);
      StepProgresses(u, e);
      StepStaysLanded(u, e, x);
      StillActual(u, Step(u, e), a, x);
      forall k | 0 <= k < |Step(u, e).employer|
        ensures Step(u, e).employer[k].app != a
      {
        if Step(u, e).employer[k].app == a {
          NewRecordsAreOfAttempt(Step(u, e), a, x, k);
        }
      }
    }
  }

  lemma StillActual(u: World, v: World, a: AppId, x: nat)
    requires Actual(u.db, a, x) && Extends(u.db, v.db)
    ensures Actual(v.db, a, x)
  {
    assert Continues(u.db.attempts[x], v.db.attempts[x]);
  }

  lemma OneStep(w: World, e: Event)
    ensures RunFrom(w, [e]) == Step(w, e)
  {
    hide Step;
    assert [e][..0] == [];
    assert RunFrom(w, []) == w;
  }

  lemma OneMore(w: World, events: seq<Event>, e: Event)
    ensures RunFrom(w, events + [e]) == Step(RunFrom(w, events), e)
  {
    hide Step;
    assert (events + [e])[..|events|] == events;
  }

  /** What is in flight can arrive. */
  lemma FlightCanArrive(w: World, a: AppId, x: nat, r: Record)
    requires WorldInv(w) && Actual(w.db, a, x) && InFlightFor(w, r, x)
    ensures HasRecord(RunFrom(w, [Arrives(r, true)]), a)
  {
    assert FlightOk(w, r);
    OneStep(w, Arrives(r, true));
    var v := RunFrom(w, [Arrives(r, true)]);
    assert v.employer[|w.employer|].app == a;
  }

  lemma PressCanArrive(w: World, a: AppId, x: nat, id: WorkerId)
    requires WorldInv(w) && Actual(w.db, a, x) && PermitFor(w, id, x) && w.workers[id].Pressing?
    ensures exists r :: HasRecord(RunFrom(w, [Presses(id), Arrives(r, true)]), a)
  {
    var h := w.workers[id].handle;
    assert PhaseOk(w, w.workers[id]);
    var r := Record(h.app, h.attempt);
    var events := [Presses(id)] + [Arrives(r, true)];
    assert events == [Presses(id), Arrives(r, true)];
    OneStep(w, Presses(id));
    OneMore(w, [Presses(id)], Arrives(r, true));
    PressStep(w, id);
    hide WorldInv, Actual, RunFrom;
    var u := Step(w, Presses(id));
    ArrivesIn(u, r);
    assert HasRecord(RunFrom(w, events), a);
  }

  lemma ArrivesIn(u: World, r: Record)
    requires r in u.flight
    ensures HasRecord(Step(u, Arrives(r, true)), r.app)
  {
    var v := Step(u, Arrives(r, true));
    assert v.employer[|u.employer|].app == r.app;
  }

  lemma PermitCanArrive(w: World, a: AppId, x: nat, id: WorkerId)
    requires WorldInv(w) && Actual(w.db, a, x) && CanPress(w, id, x) && w.workers[id].Permitted?
    ensures exists r :: HasRecord(RunFrom(w, [Checks(id), Presses(id), Arrives(r, true)]), a)
  {
    CheckStep(w, id);
    var u := Step(w, Checks(id));
    assert PermitFor(u, id, x) && u.workers[id].Pressing? && u.db == w.db;
    PressCanArrive(u, a, x, id);
    var r :| HasRecord(RunFrom(u, [Presses(id), Arrives(r, true)]), a);
    FirstStep(w, Checks(id), [Presses(id), Arrives(r, true)]);
    assert [Checks(id)] + [Presses(id), Arrives(r, true)] == [Checks(id), Presses(id), Arrives(r, true)];
  }

  lemma {:induction false} FirstStep(w: World, e: Event, events: seq<Event>)
    ensures RunFrom(w, [e] + events) == RunFrom(Step(w, e), events)
    decreases |events|
  {
    hide Step;
    if events == [] {
      assert [e] + events == [e];
      OneStep(w, e);
    } else {
      var rest := events[..|events| - 1];
      FirstStep(w, e, rest);
      assert ([e] + events)[..|events|] == [e] + rest;
    }
  }

  /**
   Finding no record is final exactly when nobody can press any more and nothing is in flight: otherwise the
   employer can still receive the application; then it never will, in any continuation.
   */
  lemma SilenceIsFinalWhenLanded(w: World, a: AppId, x: nat)
    requires WorldInv(w) && Actual(w.db, a, x) && !HasRecord(w, a)
    ensures Landed(w, x) ==> forall events: seq<Event> :: !HasRecord(RunFrom(w, events), a)
    ensures !Landed(w, x) ==> exists events: seq<Event> :: HasRecord(RunFrom(w, events), a)
  {
    hide WorldInv, Actual, RunFrom, HasRecord;
    if Landed(w, x) {
      forall events: seq<Event>
        ensures !HasRecord(RunFrom(w, events), a)
      {
        LandedStaysSilent(w, events, a, x);
      }
    } else if r :| InFlightFor(w, r, x) {
      FlightCanArrive(w, a, x, r);
    } else {
      var id :| CanPress(w, id, x);
      if w.workers[id].Permitted? {
        PermitCanArrive(w, a, x, id);
      } else {
        PressCanArrive(w, a, x, id);
      }
    }
  }

  // ---- Where a record comes from ----

  /** At moment `m` of the run some worker found the permit for attempt `x` unexpired. */
  ghost predicate CheckedAt(run: seq<World>, events: seq<Event>, x: nat, m: nat) {
    && m < |events| && m < |run| && events[m].Checks?
    && var id := events[m].worker;
       id in run[m].workers && run[m].workers[id].Permitted? && run[m].workers[id].handle.attempt == x
       && run[m].workers[id].expires > run[m].db.now
  }

  ghost predicate AboutToPress(w: World, id: WorkerId, x: nat) {
    PermitFor(w, id, x) && w.workers[id].Pressing?
  }

  /** Attempt `x` may be on its way or arrived: a worker is past the check, or it was sent. */
  ghost predicate PastCheck(w: World, x: nat) {
    || (exists id :: AboutToPress(w, id, x))
    || (exists r :: InFlightFor(w, r, x))
    || !Unsent(w, x)
  }

  /** Nothing is ever sent, and no record appears, without a permit found unexpired before. */
  lemma {:induction false} SentAfterCheck(run: seq<World>, events: seq<Event>, n: nat, x: nat) returns (m: nat)
    requires IsRun(run, events) && n < |run| && PastCheck(run[n], x)
    ensures m < n && CheckedAt(run, events, x, m)
  {
    hide Step, PastCheck;
    NothingPastCheck(run[0], x);
    if PastCheck(run[n - 1], x) {
      m := SentAfterCheck(run, events, n - 1, x);
    } else {
      m := n - 1;
      OnlyCheckPasses(run[m], events[m], x);
    }
  }

  lemma NothingPastCheck(w: World, x: nat)
    requires Initial(w)
    ensures !PastCheck(w, x)
  {
  }

  lemma OnlyCheckPasses(w: World, e: Event, x: nat)
    requires !PastCheck(w, x) && PastCheck(Step(w, e), x)
    ensures e.Checks? && e.worker in w.workers && w.workers[e.worker].Permitted?
            && w.workers[e.worker].handle.attempt == x
            && w.workers[e.worker].expires > w.db.now
  {
    hide RecoverExpired, RecoverSubmits, Recover, ReconcileReceipt, ConfirmReceipt, RecordRejection,
      AbortBeforeDispatch, Begin, Complete, Fail, AuthorizeDispatch, Claim, Renew;
    var v := Step(w, e);
    forall r
      ensures !InFlightFor(v, r, x)
    {
      assert !InFlightFor(w, r, x);
      if e.Presses? && e.worker in w.workers {
        assert !AboutToPress(w, e.worker, x);
      }
    }
    RecordsByArrival(w, e, x);
    var id :| AboutToPress(v, id, x);
    assert !AboutToPress(w, id, x);
  }

  /** The employer holds a record of attempt `x` exactly when an application sent for it arrived and was accepted. */
  lemma {:induction false} RecordIffArrived(run: seq<World>, events: seq<Event>, n: nat, x: nat)
    requires IsRun(run, events) && n < |run|
    ensures !Unsent(run[n], x) <==> exists m :: 0 <= m < n && ArrivedAt(run, events, x, m)
  {
    hide Step, Initial;
    if n == 0 {
      StartsUnsent(run[0], x);
    } else {
      RecordIffArrived(run, events, n - 1, x);
      RecordsByArrival(run[n - 1], events[n - 1], x);
      if ArrivedAt(run, events, x, n - 1) {
        assert !Unsent(run[n], x);
      }
    }
  }

  ghost predicate ArrivedAt(run: seq<World>, events: seq<Event>, x: nat, m: nat) {
    m < |events| && m < |run| && events[m].Arrives? && events[m].accepted && InFlightFor(run[m], events[m].sent, x)
  }

  lemma StartsUnsent(w: World, x: nat)
    requires Initial(w)
    ensures Unsent(w, x)
  {
  }

  lemma RecordsByArrival(w: World, e: Event, x: nat)
    ensures !Unsent(Step(w, e), x) <==> !Unsent(w, x) || (e.Arrives? && e.accepted && InFlightFor(w, e.sent, x))
  {
    hide RecoverExpired, RecoverSubmits, Recover, ReconcileReceipt, ConfirmReceipt, RecordRejection,
      AbortBeforeDispatch, Begin, Complete, Fail, AuthorizeDispatch, Claim, Renew;
    var v := Step(w, e);
    if e.Arrives? && e.accepted && e.sent in w.flight {
      assert v.employer[|w.employer|] == e.sent;
      forall k | 0 <= k < |w.employer|
        ensures v.employer[k] == w.employer[k]
      {
      }
    } else {
      assert v.employer == w.employer;
    }
  }
}
