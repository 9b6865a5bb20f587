/**
 Runs of one worker on one application that show what can go wrong between a lease and its recovery
 (scripts/commit-crash-run.ts, apps/worker/src/main.ts).
 */
module SubmissionWitness {
  import opened Outcome
  import opened SubmissionDb
  import opened SubmissionProtocol
  import opened SubmissionRecovery
  import opened SubmissionQueue
  import opened SubmissionCrash
  import opened SubmissionFences
  import opened SubmissionOutcome
  import opened SubmissionDoubt

  // ---- The scenes ----

  /** The submit of application 7, before and after worker 3 leased it at fence 1. */
  function Waits(): Task {
    Task(Submit, Option.Some(7), "employer", Chosen("first"), 0, Queued, 0, 0, 4, 0, 0, 0)
  }

  function Runs(): Task {
    Waits().(state := Leased, fence := 1, attempts := 1, owner := 3, until := 30000)
  }

  function Rows(now: int, app: App, attempts: seq<Attempt>): Db {
    Db(now, false, false, 1, map[7 := app], [Runs()], if attempts == [] then [] else [Intent(7, 0, 1)], attempts, [])
  }

  function Tried(state: AttemptState, dispatched: bool): seq<Attempt> {
    [Attempt(7, 0, 1, state, dispatched)]
  }

  function L(): Lease {
    Lease(0, 1, 3)
  }

  function H(): Handle {
    Handle(7, 0, 1)
  }

  function Sent(): Record {
    Record(7, 0)
  }

  /** Worker 3 in phase `p`; the employer holds nothing yet. */
  function Scene(d: Db, flight: set<Record>, refused: set<nat>, p: Phase): World {
    World(d, [], refused, flight, map[3 := p])
  }

  /** Worker 3 was killed. */
  function Gone(d: Db, flight: set<Record>, refused: set<nat>): World {
    World(d, [], refused, flight, map[])
  }

  function W0(): World {
    Gone(Db(0, false, false, 0, map[7 := App(Ready, 0, 0)], [Waits()], [], [], []), {}, {})
  }

  function W1(): World {
    Scene(Rows(0, App(Ready, 0, 1), []), {}, {}, Holding(L()))
  }

  function W2(): World {
    Scene(Rows(0, App(InFlight, 2, 1), Tried(Flying, false)), {}, {}, Begun(L(), H()))
  }

  function W3(): World {
    Scene(Rows(0, App(InFlight, 2, 1), Tried(Flying, true)), {}, {}, Permitted(L(), H(), 10000))
  }

  function W4(): World {
    Scene(Rows(0, App(InFlight, 2, 1), Tried(Flying, true)), {}, {}, Pressing(L(), H()))
  }

  function W5(): World {
    Scene(Rows(0, App(InFlight, 2, 1), Tried(Flying, true)), {Sent()}, {}, Waiting(L(), H()))
  }

  function Opening(): seq<Event> {
    [Claims(3, {Submit}, 30000, 2), Begins(3, 0, true), Authorizes(3, true), Checks(3), Presses(3)]
  }

  lemma ToLease()
    ensures Step(W0(), Claims(3, {Submit}, 30000, 2)) == W1()
  {
    var w := W0();
    var d := w.db;
    assert RecoverExpired(d, 1) == RecoverExpired(d, 0) == d;
    assert LeasedCount(d, 1) == LeasedCount(d, 0) == 0;
    assert Submit in Allowed(d, {Submit}) && CanClaim(d, Allowed(d, {Submit}), 0);
    assert Best(d, Allowed(d, {Submit}), 1) == Option.Some(0) by {
      assert Best(d, Allowed(d, {Submit}), 0) == Option.None;
    }
    assert Grant(d, 0, 3, 30000) == W1().db;
  }

  lemma ToIntent()
    ensures Step(W1(), Begins(3, 0, true)) == W2()
  {
    var d := W1().db;
    assert Begin(d, L(), 0, true).Some?;
    var e := Begin(d, L(), 0, true).value.0;
    assert e.apps == W2().db.apps && e.intents == W2().db.intents && e.attempts == W2().db.attempts;
    assert e == W2().db;
    hide Begin;
  }

  lemma ToPermit()
    ensures Step(W2(), Authorizes(3, true)) == W3()
  {
    var e := AuthorizeDispatch(W2().db, L(), H(), true);
    assert e.Some?;
    assert e.value.attempts == W3().db.attempts;
    hide AuthorizeDispatch;
  }

  lemma ToPress()
    ensures Step(W3(), Checks(3)) == W4() && Step(W4(), Presses(3)) == W5()
  {
  }

  lemma ToWaiting()
    ensures Step(W0(), Opening()[0]) == W1() && Step(W1(), Opening()[1]) == W2() && Step(W2(), Opening()[2]) == W3()
    ensures Step(W3(), Opening()[3]) == W4() && Step(W4(), Opening()[4]) == W5()
  {
    hide Step;
    ToLease();
    ToIntent();
    ToPermit();
    ToPress();
  }

  lemma Dies(w: World, d: Db, flight: set<Record>, refused: set<nat>, p: Phase)
    requires w == Scene(d, flight, refused, p)
    ensures Step(w, Kill(3)) == Gone(d, flight, refused)
  {
  }

  lemma Passes(d: Db, flight: set<Record>, refused: set<nat>)
    ensures Step(Gone(d, flight, refused), Tick(30000)) == Gone(d.(now := d.now + 30000), flight, refused)
  {
  }

  lemma StartsSound()
    ensures Initial(W0()) && QueueInv(W0().db)
  {
  }

  lemma LeaseStarts(run: seq<World>, events: seq<Event>)
    requires IsRun(run, events) && |events| > 0 && run[0] == W0() && events[0] == Opening()[0]
    ensures IsCourse(Course(run, events, 0, 0, 7, 1))
  {
    ToLease();
    StartsSound();
    hide Step;
    assert run[1] == Step(run[0], events[0]);
  }

  // ---- The claim that recovers ----

  lemma OneTask(d: Db)
    requires |d.tasks| == 1 && d.tasks[0].state == Leased && d.tasks[0].until <= d.now
    ensures Recovered(d) == Recover(d, 0, false)
  {
    assert RecoverExpired(d, 1) == Recover(RecoverExpired(d, 0), 0, false);
  }

  /** A claim for other work recovers the lease and takes nothing. */
  lemma OnlyRecovers(w: World)
    requires w.workers == map[] && forall u :: 0 <= u < |Recovered(w.db).tasks| ==>
               Recovered(w.db).tasks[u].kind != OtherWork
    ensures Step(w, Claims(4, {OtherWork}, 30000, 2)) == w.(db := Recovered(w.db))
  {
    hide RecoverExpired;
  }

  function Doubtful(): Db {
    var task := Runs();
    Rows(30000, App(Unknown, 3, 1), Tried(Uncertain, true))
      .(tasks := [task.(state := Cancelled), ReconcileTask(0, task, 7, 30000)])
  }

  function Reconciler(): Task {
    ReconcileTask(0, Runs(), 7, 30000).(state := Leased, fence := 2, attempts := 1, owner := 4, until := 60000)
  }

  function Claimed(): Db {
    Doubtful().(nextFence := 2, tasks := [Runs().(state := Cancelled), Reconciler()])
  }

  lemma ToDoubt()
    ensures Recovered(W5().db.(now := 30000)) == Doubtful()
  {
    var d := W5().db.(now := 30000);
    OneTask(d);
    var e := Recover(d, 0, false);
    assert e.apps == Doubtful().apps && e.attempts == Doubtful().attempts && e.tasks == Doubtful().tasks;
  }

  lemma ToReconciler(w: World)
    requires w.workers == map[] && Recovered(w.db) == Doubtful()
    ensures Step(w, Claims(4, {Reconcile}, 30000, 2)) == Put(w, 4, Claimed(), Holding(Lease(1, 2, 4)))
  {
    hide RecoverExpired;
    var h := Doubtful();
    assert LeasedCount(h, 2) == LeasedCount(h, 1) == LeasedCount(h, 0) == 0;
    assert Reconcile in Allowed(h, {Reconcile}) && CanClaim(h, Allowed(h, {Reconcile}), 1);
    assert !CanClaim(h, Allowed(h, {Reconcile}), 0);
    assert Grant(h, 1, 4, 30000) == Claimed();
  }

  lemma ToReview(w: World)
    requires w == World(Claimed(), [], {}, {Sent()}, map[4 := Holding(Lease(1, 2, 4))])
    ensures Step(w, Observes(4, true)) == w.(workers := map[4 := Observed(Lease(1, 2, 4), Option.None)])
    ensures var e := Claimed().(apps := map[7 := App(NeedsReview, 5, 1)]);
            Step(Step(w, Observes(4, true)), Reconciles(4)) == w.(db := e,
                                                                  workers := map[4 := Acknowledged(Lease(1, 2, 4))])
  {
    var v := Step(w, Observes(4, true));
    assert v == w.(workers := map[4 := Observed(Lease(1, 2, 4), Option.None)]);
    var e := ReconcileReceipt(Claimed(), Lease(1, 2, 4), Option.None);
    assert Latest(Claimed(), 7, 1) == Option.Some(0);
    assert e.Some? && e.value.apps == map[7 := App(NeedsReview, 5, 1)];
    hide ReconcileReceipt;
    assert Step(v, Reconciles(4)) == Put(v, 4, e.value, Acknowledged(Lease(1, 2, 4)));
  }

  // ---- The runs ----

  /** A lease whose intent is in doubt: the only worker is killed once it recorded the intent. */
  lemma CrashHappens() returns (c: Course)
    ensures IsCourse(c) && |c.run| == 5 && RunOut(c, 4) && Undisturbed(c, 4)
    ensures OwnIn(c.run[4].db, c.app, c.fence, {Flying})
  {
    var events := [Claims(3, {Submit}, 30000, 2), Begins(3, 0, true), Kill(3), Tick(30000)];
    var d := W2().db;
    var run := [W0(), W1(), W2(), Gone(d, {}, {}), Gone(d.(now := 30000), {}, {})];
    ToLease();
    ToIntent();
    Dies(W2(), d, {}, {}, Begun(L(), H()));
    Passes(d, {}, {});
    StartsSound();
    hide Step;
    assert IsRun(run, events);
    LeaseStarts(run, events);
    c := Course(run, events, 0, 0, 7, 1);
    assert Own(run[4].db, 7, 1, 0);
  }

  function Reviewed(): Db {
    Claimed().(apps := map[7 := App(NeedsReview, 5, 1)])
  }

  function W6(): World {
    Gone(W5().db, {Sent()}, {})
  }

  function W7(): World {
    Gone(W5().db.(now := 30000), {Sent()}, {})
  }

  function W8(): World {
    World(Claimed(), [], {}, {Sent()}, map[4 := Holding(Lease(1, 2, 4))])
  }

  function W9(): World {
    W8().(workers := map[4 := Observed(Lease(1, 2, 4), Option.None)])
  }

  function W10(): World {
    W8().(db := Reviewed(), workers := map[4 := Acknowledged(Lease(1, 2, 4))])
  }

  function W11(): World {
    W10().(flight := {}, employer := [Sent()])
  }

  function Arrival(): seq<Event> {
    [Kill(3), Tick(30000), Claims(4, {Reconcile}, 30000, 2), Observes(4, true), Reconciles(4), Arrives(Sent(), true)]
  }

  lemma ArrivalSteps()
    ensures Step(W5(), Kill(3)) == W6() && Step(W6(), Tick(30000)) == W7()
    ensures Step(W7(), Claims(4, {Reconcile}, 30000, 2)) == W8() && Step(W8(), Observes(4, true)) == W9()
    ensures Step(W9(), Reconciles(4)) == W10() && Step(W10(), Arrives(Sent(), true)) == W11()
  {
    ToArrival();
    Dies(W5(), W5().db, {Sent()}, {}, Waiting(L(), H()));
    Passes(W5().db, {Sent()}, {});
    hide Step, Recovered;
    ToDoubt();
    ToReconciler(W7());
    ToReview(W8());
  }

  lemma ToArrival()
    ensures Step(W10(), Arrives(Sent(), true)) == W11()
  {
  }

  lemma ArrivalRun() returns (run: seq<World>, events: seq<Event>)
    ensures IsCourse(Course(run, events, 0, 0, 7, 1)) && |run| == 12 && |events| == 11
    ensures run[3] == W3() && run[5] == W5() && run[6] == W6() && run[7] == W7() && run[8] == W8() && run[9] == W9()
    ensures run[10] == W10() && run[11] == W11()
    ensures events[7] == Claims(4, {Reconcile}, 30000, 2) && events[8] == Observes(4, true)
            && events[9] == Reconciles(4)
    ensures forall k :: 0 <= k < |events| ==> !events[k].Moves?
  {
    run := [W0(), W1(), W2(), W3(), W4(), W5(), W6(), W7(), W8(), W9(), W10(), W11()];
    events := Opening() + Arrival();
    ToWaiting();
    ArrivalSteps();
    StartsSound();
    hide Step, QueueInv, Initial, W0, W1, W2, W3, W4, W5, W6, W7, W8, W9, W10, W11;
    assert IsRun(run, events);
    LeaseStarts(run, events);
  }

  lemma ArrivalFacts()
    ensures W5().workers == map[3 := Waiting(L(), H())] && W6().workers == map[] && W7().workers == map[]
    ensures W3().workers == map[3 := Permitted(L(), H(), 10000)]
    ensures W7().db.now == 30000 && W7().db.tasks == [Runs()]
    ensures Own(W7().db, 7, 1, 0) && W7().db.attempts[0].state == Flying
    ensures W8().workers == map[4 := Holding(Lease(1, 2, 4))] && |W8().db.tasks| == 2
            && W8().db.tasks[1].app == Option.Some(7)
    ensures W9().workers == map[4 := Observed(Lease(1, 2, 4), Option.None)]
            && ValidLease(W9().db, Lease(1, 2, 4), Reconcile)
    ensures W10().db == W11().db == Reviewed() && InDoubt(Reviewed(), 7, 0) && !HasRecord(W10(), 7)
            && HasRecord(W11(), 7)
  {
    assert W11().employer[0].app == 7;
  }

  /**
   The record arrives at last: its permit ran out, its worker was killed, and a reconciliation whose lookup found
   nothing put the application up for review.
   */
  lemma RecordArrivesAfterReview() returns (c: Course)
    ensures IsCourse(c) && |c.run| == 12 && RunOut(c, 7) && Undisturbed(c, 11)
    ensures c.run[5].workers == map[3 := Waiting(L(), H())] && c.run[6].workers == map[]
    ensures c.run[3].workers == map[3 := Permitted(L(), H(), 10000)] && c.run[7].db.now == 30000
    ensures Recovers(c.run[7], c.events[7]) && OwnIn(c.run[7].db, c.app, c.fence, {Flying})
    ensures Looks(c.run, c.events, 8, 9, 4, c.app) && c.run[10].db == c.run[11].db == Reviewed()
    ensures InDoubt(c.run[11].db, c.app, 0) && !HasRecord(c.run[10], c.app) && HasRecord(c.run[11], c.app)
  {
    var run, events := ArrivalRun();
    ArrivalFacts();
    c := Course(run, events, 0, 0, 7, 1);
    NobodyMoves(c, 11);
    ArrivalLooks(run, events);
    ArrivalRunsOut(c);
    hide *;
  }

  lemma ArrivalRunsOut(c: Course)
    requires |c.run| == 12 && |c.events| == 11 && c.run[7] == W7() && c.events[7] == Claims(4, {Reconcile}, 30000, 2)
    requires c.start == 0 && c.task == 0 && c.app == 7 && c.fence == 1
    ensures RunOut(c, 7) && Recovers(c.run[7], c.events[7]) && OwnIn(c.run[7].db, c.app, c.fence, {Flying})
  {
    assert Own(W7().db, 7, 1, 0);
  }

  lemma ArrivalLooks(run: seq<World>, events: seq<Event>)
    requires |run| == 12 && |events| == 11 && run[8] == W8() && run[9] == W9()
    requires events[8] == Observes(4, true) && events[9] == Reconciles(4)
    ensures Looks(run, events, 8, 9, 4, 7)
  {
    ArrivalFacts();
    hide ValidLease, W8, W9;
  }

  lemma NobodyMoves(c: Course, n: nat)
    requires forall k :: 0 <= k < |c.events| ==> !c.events[k].Moves?
    ensures Undisturbed(c, n)
  {
  }

  // ---- A rejection nobody acknowledged ----

  function R6(): World {
    Scene(W5().db, {}, {0}, Waiting(L(), H()))
  }

  function R7(): World {
    Scene(W5().db, {}, {0}, Refused(L(), H()))
  }

  function R8(): World {
    Scene(Rows(0, App(DefinitiveFailure, 3, 1), Tried(Rejected, true)), {}, {0}, Acknowledged(L()))
  }

  function R9(): World {
    Gone(R8().db, {}, {0})
  }

  function R10(): World {
    Gone(Rows(30000, App(DefinitiveFailure, 3, 1), Tried(Rejected, true)), {}, {0})
  }

  function R11(): World {
    Gone(R10().db.(tasks := [Runs().(state := RetryWait, runAfter := 30000)]), {}, {0})
  }

  function Rejection(): seq<Event> {
    [Arrives(Sent(), false), Sees(3, true), RecordsRejection(3), Kill(3), Tick(30000), Claims(4, {OtherWork}, 30000, 2)]
  }

  lemma ToRefusal()
    ensures Step(W5(), Arrives(Sent(), false)) == R6() && Step(R6(), Sees(3, true)) == R7()
  {
    assert W5().flight - {Sent()} == {};
  }

  lemma ToRejection()
    ensures Step(R7(), RecordsRejection(3)) == R8()
  {
    var e := RecordRejection(R7().db, L(), H());
    assert e.Some?;
    assert e.value.attempts == R8().db.attempts && e.value.apps == R8().db.apps;
    hide RecordRejection;
  }

  lemma RejectionSteps()
    ensures Step(W5(), Arrives(Sent(), false)) == R6() && Step(R6(), Sees(3, true)) == R7()
            && Step(R7(), RecordsRejection(3)) == R8()
    ensures Step(R8(), Kill(3)) == R9() && Step(R9(), Tick(30000)) == R10()
  {
    ToRefusal();
    ToRejection();
    Dies(R8(), R8().db, {}, {0}, Acknowledged(L()));
    Passes(R8().db, {}, {0});
    hide Step;
  }

  /** Recovery retries a submit whose application stands rejected. */
  lemma ToRetry()
    ensures Step(R10(), Claims(4, {OtherWork}, 30000, 2)) == R11() && Recovered(R10().db) == R11().db
  {
    var d := R10().db;
    OneTask(d);
    assert Recover(d, 0, false).tasks == R11().db.tasks;
    hide Recovered;
    OnlyRecovers(R10());
  }

  /** Its rejection is recorded, its worker dies before acknowledging it, and the submit goes back to the queue. */
  lemma RejectedIsRetried() returns (c: Course)
    ensures IsCourse(c) && |c.run| == 12 && RunOut(c, 10) && Undisturbed(c, 11)
    ensures c.run[8].workers == map[3 := Acknowledged(L())] && c.run[9].workers == map[]
    ensures Recovers(c.run[10], c.events[10]) && OwnIn(c.run[10].db, c.app, c.fence, {Rejected})
    ensures c.run[11].db == Recovered(c.run[10].db)
            && c.run[11].db.tasks == [Runs().(state := RetryWait, runAfter := 30000)]
    ensures c.run[11].db.apps == map[7 := App(DefinitiveFailure, 3, 1)] && PriorFinalAction(c.run[11].db, 7)
  {
    var run, events := RejectedRun();
    RejectedFacts();
    c := Course(run, events, 0, 0, 7, 1);
    NobodyMoves(c, 11);
    hide IsCourse, Undisturbed, Recovered, Own, PriorFinalAction, R8, R9, R10, R11;
  }

  lemma RejectedFacts()
    ensures R8().workers == map[3 := Acknowledged(L())] && R9().workers == map[] && R10().workers == map[]
    ensures R10().db.now == 30000 && R10().db.tasks == [Runs()]
    ensures Own(R10().db, 7, 1, 0) && R10().db.attempts[0].state == Rejected
    ensures R11().db == Recovered(R10().db) && R11().db.tasks == [Runs().(state := RetryWait, runAfter := 30000)]
    ensures R11().db.apps == map[7 := App(DefinitiveFailure, 3, 1)] && PriorFinalAction(R11().db, 7)
  {
    ToRetry();
    assert Counts(R11().db.attempts[0]);
  }

  lemma RejectedRun() returns (run: seq<World>, events: seq<Event>)
    ensures IsCourse(Course(run, events, 0, 0, 7, 1)) && |run| == 12 && |events| == 11
    ensures run[8] == R8() && run[9] == R9() && run[10] == R10() && run[11] == R11()
    ensures events[10] == Claims(4, {OtherWork}, 30000, 2) && forall k :: 0 <= k < |events| ==> !events[k].Moves?
  {
    run := [W0(), W1(), W2(), W3(), W4(), W5(), R6(), R7(), R8(), R9(), R10(), R11()];
    events := Opening() + Rejection();
    ToWaiting();
    RejectionSteps();
    ToRetry();
    StartsSound();
    hide Step, Recovered, QueueInv, Initial, W0, W1, W2, W3, W4, W5, R6, R7, R8, R9, R10, R11;
    assert IsRun(run, events);
    LeaseStarts(run, events);
  }

  // ---- A move under the lease ----

  /** At moment `n` recovery cancels the submit and queues its reconciliation, although no intent of it is in doubt. */
  ghost predicate UnsettledAt(c: Course, n: nat) {
    && IsCourse(c) && RunOut(c, n) && n + 1 < |c.run| && Recovers(c.run[n], c.events[n])
    && !OwnIn(c.run[n].db, c.app, c.fence, {Flying, Uncertain})
       && !FollowsIntent(c.run[n].db, c.run[n + 1].db, c.task, c.app, c.fence)
    && c.run[n + 1].db.tasks[0].state == Cancelled
    && c.run[n + 1].db.tasks == [Runs().(state := Cancelled), ReconcileTask(0, Runs(), 7, 30000)]
  }

  /** The rows when another repository has put the application up for review, and after recovery. */
  function Moved(revision: nat, attempts: seq<Attempt>, refused: set<nat>): World {
    Gone(Rows(30000, App(NeedsReview, revision, 1), attempts), {}, refused)
  }

  function Unsettled(revision: nat, attempts: seq<Attempt>, refused: set<nat>): World {
    var w := Moved(revision, attempts, refused);
    w.(db := w.db.(tasks := [Runs().(state := Cancelled), ReconcileTask(0, Runs(), 7, 30000)]))
  }

  lemma ToUnsettled(revision: nat, attempts: seq<Attempt>, refused: set<nat>)
    ensures Step(Moved(revision, attempts, refused), Claims(4, {OtherWork}, 30000, 2)) == Unsettled(revision, attempts,
                                                                                                    refused)
  {
    var w := Moved(revision, attempts, refused);
    OneTask(w.db);
    assert Recover(w.db, 0, false).tasks == Unsettled(revision, attempts, refused).db.tasks;
    assert Recovered(w.db) == Unsettled(revision, attempts, refused).db;
    hide Recovered;
    OnlyRecovers(w);
  }

  lemma ToMoved(state: AppState, revision: nat, attempts: seq<Attempt>, refused: set<nat>)
    ensures Step(Gone(Rows(30000, App(state, revision, 1), attempts), {}, refused), Moves(7, NeedsReview))
            == Moved(revision + 1, attempts, refused)
  {
  }

  lemma ShowsUnsettled(c: Course, n: nat, revision: nat, attempts: seq<Attempt>, refused: set<nat>)
    requires IsCourse(c) && c.task == 0 && c.app == 7 && c.fence == 1 && 0 == c.start < n && n + 1 < |c.run|
    requires c.events[n] == Claims(4, {OtherWork}, 30000, 2) && |attempts| <= 1
    requires c.run[n] == Moved(revision, attempts, refused) && c.run[n + 1] == Unsettled(revision, attempts, refused)
    requires forall i :: 0 <= i < |attempts| ==> attempts[i].state in {Rejected, Blocked}
    ensures UnsettledAt(c, n)
  {
    hide IsCourse;
  }

  /** No intent was recorded under the lease. */
  lemma MovedBeforeIntent() returns (c: Course)
    ensures |c.run| == 6 && UnsettledAt(c, 4) && NoIntent(c.run[4].db, c.app, c.fence)
  {
    var run := [W0(), W1(), Scene(Rows(0, App(NeedsReview, 1, 1), []), {}, {}, Holding(L())),
                Gone(Rows(0, App(NeedsReview, 1, 1), []), {}, {}), Moved(1, [], {}), Unsettled(1, [], {})];
    var events := [Opening()[0], Moves(7, NeedsReview), Kill(3), Tick(30000), Claims(4, {OtherWork}, 30000, 2)];
    ToLease();
    Dies(run[2], run[2].db, {}, {}, Holding(L()));
    Passes(run[2].db, {}, {});
    ToUnsettled(1, [], {});
    StartsSound();
    assert Step(W1(), Moves(7, NeedsReview)) == run[2];
    hide Step, QueueInv, Initial, Unsettled;
    assert IsRun(run, events);
    LeaseStarts(run, events);
    c := Course(run, events, 0, 0, 7, 1);
    ShowsUnsettled(c, 4, 1, [], {});
  }

  function B3(): World {
    Scene(Rows(0, App(Unsupported, 3, 1), Tried(Blocked, false)), {}, {}, Acknowledged(L()))
  }

  lemma ToBlocked()
    ensures Step(W2(), Aborts(3)) == B3()
  {
    var e := AbortBeforeDispatch(W2().db, L(), H());
    assert e.Some?;
    assert e.value.attempts == B3().db.attempts && e.value.apps == B3().db.apps;
    hide AbortBeforeDispatch;
  }

  function B4(): World {
    Gone(B3().db, {}, {})
  }

  function B5(): World {
    Gone(Rows(30000, App(Unsupported, 3, 1), Tried(Blocked, false)), {}, {})
  }

  function B6(): World {
    Moved(4, Tried(Blocked, false), {})
  }

  function B7(): World {
    Unsettled(4, Tried(Blocked, false), {})
  }

  function Abort(): seq<Event> {
    [Opening()[0], Opening()[1], Aborts(3), Kill(3), Tick(30000), Moves(7, NeedsReview),
     Claims(4, {OtherWork}, 30000, 2)]
  }

  lemma AbortSteps()
    ensures Step(W2(), Aborts(3)) == B3() && Step(B3(), Kill(3)) == B4() && Step(B4(), Tick(30000)) == B5()
    ensures Step(B5(), Moves(7, NeedsReview)) == B6() && Step(B6(), Claims(4, {OtherWork}, 30000, 2)) == B7()
  {
    hide Step;
    ToBlocked();
    Dies(B3(), B3().db, {}, {}, Acknowledged(L()));
    Passes(B3().db, {}, {});
    ToMoved(Unsupported, 3, Tried(Blocked, false), {});
    ToUnsettled(4, Tried(Blocked, false), {});
  }

  lemma AbortIsRun(run: seq<World>)
    requires run == [W0(), W1(), W2(), B3(), B4(), B5(), B6(), B7()]
    ensures IsCourse(Course(run, Abort(), 0, 0, 7, 1))
  {
    ToWaiting();
    AbortSteps();
    StartsSound();
    hide Step, QueueInv, Initial, W0, W1, W2, B3, B4, B5, B6, B7;
    assert IsRun(run, Abort());
    LeaseStarts(run, Abort());
  }

  /** The intent was aborted before dispatch, and the application then moved. */
  lemma MovedAfterAbort() returns (c: Course)
    ensures |c.run| == 8 && UnsettledAt(c, 6) && OwnIn(c.run[6].db, c.app, c.fence, {Blocked})
  {
    var run := [W0(), W1(), W2(), B3(), B4(), B5(), B6(), B7()];
    AbortIsRun(run);
    c := Course(run, Abort(), 0, 0, 7, 1);
    hide IsCourse, UnsettledAt;
    ShowsUnsettled(c, 6, 4, Tried(Blocked, false), {});
    assert Own(B6().db, 7, 1, 0);
  }

  // The same after a recorded rejection.

  function M11(): World {
    Moved(4, Tried(Rejected, true), {0})
  }

  function M12(): World {
    Unsettled(4, Tried(Rejected, true), {0})
  }

  lemma MoveSteps()
    ensures Step(R10(), Moves(7, NeedsReview)) == M11() && Step(M11(), Claims(4, {OtherWork}, 30000, 2)) == M12()
  {
    hide Step;
    ToMoved(DefinitiveFailure, 3, Tried(Rejected, true), {0});
    ToUnsettled(4, Tried(Rejected, true), {0});
  }

  lemma MovedIsRun(run: seq<World>, events: seq<Event>)
    requires run == [W0(), W1(), W2(), W3(), W4(), W5(), R6(), R7(), R8(), R9(), R10(), M11(), M12()]
    requires events == Opening() + Rejection()[..5] + [Moves(7, NeedsReview), Rejection()[5]]
    ensures IsCourse(Course(run, events, 0, 0, 7, 1))
  {
    ToWaiting();
    RejectionSteps();
    MoveSteps();
    StartsSound();
    hide Step, QueueInv, Initial, W0, W1, W2, W3, W4, W5, R6, R7, R8, R9, R10, M11, M12;
    assert IsRun(run, events);
    LeaseStarts(run, events);
  }

  /** The intent was definitively rejected, and the application then moved. */
  lemma MovedAfterRejection() returns (c: Course)
    ensures |c.run| == 13 && UnsettledAt(c, 11) && OwnIn(c.run[11].db, c.app, c.fence, {Rejected})
  {
    var run := [W0(), W1(), W2(), W3(), W4(), W5(), R6(), R7(), R8(), R9(), R10(), M11(), M12()];
    var events := Opening() + Rejection()[..5] + [Moves(7, NeedsReview), Rejection()[5]];
    MovedIsRun(run, events);
    c := Course(run, events, 0, 0, 7, 1);
    hide IsCourse, UnsettledAt;
    ShowsUnsettled(c, 11, 4, Tried(Rejected, true), {0});
    assert Own(M11().db, 7, 1, 0);
  }
}
