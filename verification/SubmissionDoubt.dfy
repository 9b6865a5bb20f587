/**
 Doubt about a final action: it follows the crash of a worker, lasts until a reconciliation finds the employer's
 record, and never leads to a second action (scripts/commit-crash-run.ts,
 packages/persistence/src/submission-repository.ts).
 */
module SubmissionDoubt {
  import opened Outcome
  import opened SubmissionDb
  import opened SubmissionProtocol
  import opened SubmissionRecovery
  import opened SubmissionQueue
  import opened SubmissionCrash
  import opened SubmissionFences
  import opened SubmissionOutcome

  // ---- Doubt ends only by reconciliation ----

  /** Attempt `x` is the application's final action, and nobody knows what became of it. */
  ghost predicate InDoubt(d: Db, a: AppId, x: nat) {
    Actual(d, a, x) && d.attempts[x].state == Uncertain && a in d.apps && d.apps[a].state in {Unknown, NeedsReview}
  }

  ghost predicate Decided(d: Db, a: AppId, x: nat) {
    Actual(d, a, x) && d.attempts[x].state == Accepted && a in d.apps && d.apps[a].state == Confirmed
  }

  lemma SameRowsKeepDoubt(d: Db, e: Db, a: AppId, x: nat)
    requires SameRows(d, e, a)
    ensures InDoubt(d, a, x) ==> InDoubt(e, a, x)
    ensures Decided(d, a, x) ==> Decided(e, a, x)
  {
  }

  lemma ReconcileEndsDoubt(d: Db, l: Lease, evidence: Option<nat>, a: AppId, x: nat)
    requires DbInv(d) && (InDoubt(d, a, x) || Decided(d, a, x)) && ReconcileReceipt(d, l, evidence).Some?
    ensures var e := ReconcileReceipt(d, l, evidence).value;
            (InDoubt(e, a, x) || Decided(e, a, x)) && (Decided(d, a, x) ==> Decided(e, a, x))
  {
    var e := ReconcileReceipt(d, l, evidence).value;
    if d.tasks[l.task].app.value == a {
      var i := Latest(d, a, |d.attempts|).value;
      assert x <= i;
      assert i == x;
    } else {
      SameRowsKeepDoubt(d, e, a, x);
    }
  }

  lemma {:induction false} RecoveriesLeaveDoubt(d: Db, n: nat, a: AppId)
    requires n <= |d.tasks| && a in d.apps && d.apps[a].state != InFlight
    ensures SameRows(d, RecoverExpired(d, n), a) && SameRows(d, RecoverSubmits(d, n), a)
  {
    hide Recover;
    if n > 0 {
      RecoveriesLeaveDoubt(d, n - 1, a);
      RecoverElsewhere(RecoverExpired(d, n - 1), n - 1, false, a);
      RecoverElsewhere(RecoverSubmits(d, n - 1), n - 1, true, a);
    }
  }

  /** A submit of an application that is decided or in doubt is not leased, so a lease leaves its rows alone. */
  lemma GrantLeavesDoubt(d: Db, kinds: set<Kind>, u: nat, worker: WorkerId, leaseMs: nat, a: AppId)
    requires a in d.apps && Final(d.apps[a].state) && u < |d.tasks| && CanClaim(d, kinds, u)
    ensures SameRows(d, Grant(d, u, worker, leaseMs), a)
  {
    hide Unobstructed;
  }

  lemma ClaimLeavesDoubt(d: Db, worker: WorkerId, kinds: set<Kind>, leaseMs: nat, concurrency: nat, a: AppId)
    requires Steady(d, a)
    ensures SameRows(d, Claim(d, worker, kinds, leaseMs, concurrency).0, a)
  {
    RecoveriesLeaveDoubt(d, |d.tasks|, a);
    SameRowsRefl(d, a);
    ClaimIsRecoveryAndGrant(d, worker, kinds, leaseMs, concurrency);
    var h := Recovered(d);
    var (e, lease) := Claim(d, worker, kinds, leaseMs, concurrency);
    SameApp(d, h, a);
    hide RecoverExpired, Claim, CanClaim, Grant, SameRows;
    if lease.Some? {
      GrantLeavesDoubt(h, Allowed(h, kinds), lease.value.task, worker, leaseMs, a);
      SameRowsTrans(d, h, e, a);
    }
  }

  lemma SameApp(d: Db, h: Db, a: AppId)
    requires SameRows(d, h, a)
    ensures a in d.apps && a in h.apps && h.apps[a] == d.apps[a]
  {
  }

  /** The application is decided or in doubt, and not in flight. */
  ghost predicate Steady(d: Db, a: AppId) {
    a in d.apps && Final(d.apps[a].state) && d.apps[a].state != InFlight
  }

  lemma ControlLeavesDoubt(d: Db, paused: bool, stopped: bool, a: AppId)
    requires Steady(d, a)
    ensures SameRows(d, SetControl(d, paused, stopped), a)
  {
    var c := d.(paused := paused, stopped := stopped);
    RecoveriesLeaveDoubt(c, |c.tasks|, a);
    hide RecoverSubmits;
    assert SameRows(d, c, a);
    SameRowsTrans(d, c, if paused || stopped then RecoverSubmits(c, |c.tasks|) else c, a);
  }

  lemma QueueStepLeavesDoubt(w: World, e: Event, a: AppId)
    requires Steady(w.db, a) && !OfWorker(e) && !Moving(e, a)
    ensures SameRows(w.db, Step(w, e).db, a)
  {
    hide Recover, SetControl, Claim;
    match e
    case Controls(paused, stopped) => ControlLeavesDoubt(w.db, paused, stopped, a);
    case Cancels(u) =>
      if u < |w.db.tasks| {
        RecoverElsewhere(w.db, u, true, a);
      }
    case Claims(id, kinds, leaseMs, concurrency) => ClaimLeavesDoubt(w.db, id, kinds, leaseMs, concurrency, a);
    case _ =>
  }

  /** Transactions before the press need an application ready or in flight, ... */
  lemma EarlyStepLeavesDoubt(w: World, id: WorkerId, p: Phase, e: Event, a: AppId)
    requires Steady(w.db, a) && (e.Begins? || e.Authorizes? || e.Aborts?)
    ensures SameRows(w.db, WorkerStep(w, id, p, e).db, a)
  {
  }

  /** ... and so do those that record the response. */
  lemma LateStepLeavesDoubt(w: World, id: WorkerId, p: Phase, e: Event, a: AppId)
    requires Steady(w.db, a) && !e.Begins? && !e.Authorizes? && !e.Aborts? && !e.Reconciles?
    ensures SameRows(w.db, WorkerStep(w, id, p, e).db, a)
  {
    hide Recover;
    if e.Fails? && p.lease.task < |w.db.tasks| {
      RecoverElsewhere(w.db, p.lease.task, false, a);
    }
  }

  lemma StepKeepsDoubt(w: World, e: Event, a: AppId, x: nat)
    requires WorldInv(w) && (InDoubt(w.db, a, x) || Decided(w.db, a, x)) && !Moving(e, a)
    ensures InDoubt(Step(w, e).db, a, x) || Decided(Step(w, e).db, a, x)
    ensures Decided(w.db, a, x) ==> Decided(Step(w, e).db, a, x)
  {
    var v := Step(w, e);
    if !OfWorker(e) {
      hide Step;
      QueueStepLeavesDoubt(w, e, a);
      SameRowsKeepDoubt(w.db, v.db, a, x);
    } else if e.worker in w.workers {
      var p := w.workers[e.worker];
      assert v == WorkerStep(w, e.worker, p, e);
      hide Step;
      if e.Reconciles? {
        hide ReconcileReceipt;
        if p.Observed? && ReconcileReceipt(w.db, p.lease, p.evidence).Some? {
          ReconcileEndsDoubt(w.db, p.lease, p.evidence, a, x);
        }
      } else {
        hide WorkerStep;
        if e.Begins? || e.Authorizes? || e.Aborts? {
          EarlyStepLeavesDoubt(w, e.worker, p, e, a);
        } else {
          LateStepLeavesDoubt(w, e.worker, p, e, a);
        }
        SameRowsKeepDoubt(w.db, v.db, a, x);
      }
    }
  }

  /** No other repository moves the application from moment `m` up to moment `n`. */
  ghost predicate Unmoved(events: seq<Event>, a: AppId, m: nat, n: nat) {
    forall k :: m <= k < n && k < |events| ==> !Moving(events[k], a)
  }

  lemma {:induction false} UnmovedDoubt(run: seq<World>, events: seq<Event>, m: nat, n: nat, a: AppId, x: nat)
    requires IsRun(run, events) && m <= n < |run| && InDoubt(run[m].db, a, x) && Unmoved(events, a, m, n)
    ensures InDoubt(run[n].db, a, x) || Decided(run[n].db, a, x)
  {
    hide Step, WorldInv, InDoubt, Decided;
    if m < n {
      UnmovedDoubt(run, events, m, n - 1, a, x);
      RunKeepsInv(run, events, n - 1);
      StepKeepsDoubt(run[n - 1], events[n - 1], a, x);
    }
  }

  lemma AcceptedHasRecord(w: World, a: AppId, x: nat)
    requires WorldInv(w) && x < |w.db.attempts| && w.db.attempts[x].app == a && w.db.attempts[x].state == Accepted
    ensures HasRecord(w, a)
  {
    assert HasReceipt(w.db, x);
    var r :| 0 <= r < |w.db.receipts| && w.db.receipts[r].attempt == x;
    assert RecordFor(w, w.db.receipts[r].record, w.db.receipts[r].app);
  }

  /**
   From the moment it arises, doubt about an attempt lasts, whatever other repositories do to the application,
   until it is accepted on a record the employer holds; unmoved, the application shows which of the two it is.
   */
  lemma DoubtLastsUntilReconciled(run: seq<World>, events: seq<Event>, m: nat, n: nat, a: AppId, x: nat)
    requires IsRun(run, events) && m <= n < |run| && Actual(run[m].db, a, x) && run[m].db.attempts[x].state == Uncertain
    ensures Actual(run[n].db, a, x) && run[n].db.attempts[x].state in {Uncertain, Accepted}
    ensures run[n].db.attempts[x].state == Accepted ==> HasRecord(run[n], a)
    ensures InDoubt(run[m].db, a, x) && Unmoved(events, a, m, n) ==>
              InDoubt(run[n].db, a, x) || Decided(run[n].db, a, x)
  {
    RunExtends(run, events, m, n);
    RunKeepsInv(run, events, n);
    hide Step, WorldInv, IsRun, HasRecord;
    assert Continues(run[m].db.attempts[x], run[n].db.attempts[x]);
    if run[n].db.attempts[x].state == Accepted {
      AcceptedHasRecord(run[n], a, x);
    }
    if InDoubt(run[m].db, a, x) && Unmoved(events, a, m, n) {
      UnmovedDoubt(run, events, m, n, a, x);
    }
  }

  // ---- Reconciliation follows the record ----

  /**
   Worker `id` looks the application's record up at `m` and
   decides on what it found at `n`, its lease still valid.
   */
  ghost predicate Looks(run: seq<World>, events: seq<Event>, m: nat, n: nat, id: WorkerId, a: AppId) {
    && m < n < |events| && |run| == |events| + 1 && events[m] == Observes(id, true) && events[n] == Reconciles(id)
    && id in run[m].workers && run[m].workers[id].Holding?
    && id in run[m + 1].workers && id in run[n].workers && run[n].workers[id] == run[m + 1].workers[id]
    && var l := run[m].workers[id].lease;
       && l.task < |run[m].db.tasks| && run[m].db.tasks[l.task].app == Option.Some(a)
       && ValidLease(run[n].db, l, Reconcile)
  }

  /**
   Whatever happens between a reconciler's lookup and its decision: an attempt in doubt is confirmed, with one
   receipt, exactly when the employer held its record at the lookup, and is put up for review otherwise.
   */
  lemma ReconciliationFollowsTheRecord(run: seq<World>, events: seq<Event>, m: nat, n: nat, id: WorkerId, a: AppId,
                                       x: nat)
    requires IsRun(run, events) && Looks(run, events, m, n, id, a) && InDoubt(run[n].db, a, x)
    ensures && a in run[n + 1].db.apps
            && run[n + 1].db.apps[a].state == (if HasRecord(run[m], a) then Confirmed else NeedsReview)
            && (HasRecord(run[m], a) <==> Decided(run[n + 1].db, a, x))
            && |run[n + 1].db.receipts| == |run[n].db.receipts| + (if HasRecord(run[m], a) then 1 else 0)
  {
    RunExtends(run, events, m, n);
    RunKeepsInv(run, events, n);
    var w, l := run[n], run[m].workers[id].lease;
    var found := RecordOf(run[m].employer, a, |run[m].employer|);
    ObservedThen(run[m], id, a);
    assert HasRecord(run[m], a) <==> found.Some?;
    assert w.workers[id] == Observed(l, found);
    assert found.Some? ==> RecordFor(w, found.value, a);
    EvidenceUsable(w, a, x, found);
    assert w.db.tasks[l.task].app == Option.Some(a);
    hide IsRun, WorldInv, RecordUsed, Extends;
    DecidesByEvidence(w, id, l, found, a, x);
    assert run[n + 1] == Step(run[n], events[n]) by {
      assert IsRun(run, events);
    }
  }

  lemma ObservedThen(w: World, id: WorkerId, a: AppId)
    requires id in w.workers && w.workers[id].Holding? && w.workers[id].lease.task < |w.db.tasks|
    requires w.db.tasks[w.workers[id].lease.task].app == Option.Some(a)
    ensures var v := Step(w, Observes(id, true));
            id in v.workers && v.workers[id] == Observed(w.workers[id].lease, RecordOf(w.employer, a, |w.employer|))
  {
  }

  lemma DecidesByEvidence(w: World, id: WorkerId, l: Lease, found: Option<nat>, a: AppId, x: nat)
    requires id in w.workers && w.workers[id] == Observed(l, found) && ValidLease(w.db, l, Reconcile)
    requires w.db.tasks[l.task].app == Option.Some(a) && InDoubt(w.db, a, x)
    requires Latest(w.db, a, |w.db.attempts|) == Option.Some(x) && (found.Some? ==> !RecordUsed(w.db, found.value))
    ensures var v := Step(w, Reconciles(id));
            && a in v.db.apps && v.db.apps[a].state == (if found.Some? then Confirmed else NeedsReview)
            && (found.Some? <==> Decided(v.db, a, x))
            && |v.db.receipts| == |w.db.receipts| + (if found.Some? then 1 else 0)
  {
    hide RecordUsed, Latest;
    var e := ReconcileReceipt(w.db, l, found);
    assert e.Some?;
    assert Step(w, Reconciles(id)).db == e.value by {
      hide ReconcileReceipt;
    }
  }

  // ---- From the crash to the decision ----

  /** Event `e` is a claim by a free worker that recovers what has expired. */
  ghost predicate Recovers(w: World, e: Event) {
    e.Claims? && e.worker !in w.workers && e.kinds != {} && Admits(e.leaseMs, e.concurrency)
  }

  /** Recovery in doubt is doubt. */
  lemma RecoveryBringsDoubt(d: Db, h: Db, t: nat, a: AppId, x: nat)
    requires Doubted(d, h, t, a, x)
    ensures InDoubt(h, a, x)
  {
  }

  lemma GrantKeepsDoubt(h: Db, u: nat, worker: WorkerId, leaseMs: nat, a: AppId, x: nat)
    requires InDoubt(h, a, x) && u < |h.tasks|
    ensures InDoubt(Grant(h, u, worker, leaseMs), a, x)
  {
  }

  /** The database after a recovering claim: what recovery left, and perhaps one lease more. */
  lemma RecoveryThenGrant(w: World, e: Event)
    requires Recovers(w, e)
    ensures var h, v := Recovered(w.db), Step(w, e).db;
            v == h || exists u: nat :: u < |h.tasks| && v == Grant(h, u, e.worker, e.leaseMs)
  {
    hide RecoverExpired, Best, CanClaim, Grant, Allowed, LeasedCount;
    ClaimStepIs(w, e);
  }

  /** The claim that recovers a lease whose intent is in doubt leaves attempt and application in doubt. */
  lemma RecoveryLeavesDoubt(c: Course, n: nat)
    requires IsCourse(c) && RunOut(c, n) && Undisturbed(c, n) && n < |c.events| && Recovers(c.run[n], c.events[n])
    requires OwnIn(c.run[n].db, c.app, c.fence, {Flying, Uncertain})
    ensures exists x: nat :: Own(c.run[n].db, c.app, c.fence, x) && InDoubt(c.run[n + 1].db, c.app, x)
  {
    RecoveryFollowsIntent(c, n);
    var w, e, t, a, f := c.run[n], c.events[n], c.task, c.app, c.fence;
    var d, h := w.db, Recovered(w.db);
    assert c.run[n + 1] == Step(w, e);
    hide *;
    assert h.tasks[t].state == Cancelled by {
      assert FollowsIntent(d, h, t, a, f);
    }
    var x: nat :| Own(d, a, f, x) && Doubted(d, h, t, a, x);
    RecoveryBringsDoubt(d, h, t, a, x);
    RecoveryThenGrant(w, e);
    if u: nat :| u < |h.tasks| && Step(w, e).db == Grant(h, u, e.worker, e.leaseMs) {
      GrantKeepsDoubt(h, u, e.worker, e.leaseMs, a, x);
    }
  }

  /**
   From the lease to the decision: a worker is gone with its intent in doubt, the claim at `n` recovers its lease,
   a reconciler looks the record up at `p` and decides at `q`. However the steps in between interleave, the
   application is then confirmed exactly when the employer held its record at the lookup, or an earlier
   reconciliation had already confirmed it on such a record; otherwise it is up for review.
   */
  lemma CrashedSubmitIsReconciled(c: Course, n: nat, p: nat, q: nat, id: WorkerId)
    requires IsCourse(c) && RunOut(c, n) && n < p && Looks(c.run, c.events, p, q, id, c.app) && Undisturbed(c, q)
    requires Recovers(c.run[n], c.events[n]) && OwnIn(c.run[n].db, c.app, c.fence, {Flying, Uncertain})
    ensures exists x: nat :: Own(c.run[n].db, c.app, c.fence, x) && Reconciled(c, p, q, x)
  {
    RecoveryLeavesDoubt(c, n);
    var x: nat :| Own(c.run[n].db, c.app, c.fence, x) && InDoubt(c.run[n + 1].db, c.app, x);
    assert Unmoved(c.events, c.app, n + 1, q);
    hide InDoubt, Step, Recovers, RunOut, Own, OwnIn, Looks, LeaseBegins, QueueInv;
    LookedBefore(c.run, c.events, p, q, id, c.app);
    DoubtIsReconciled(c, n, p, q, id, x);
  }

  lemma LookedBefore(run: seq<World>, events: seq<Event>, p: nat, q: nat, id: WorkerId, a: AppId)
    requires Looks(run, events, p, q, id, a)
    ensures p < q < |events| && |run| == |events| + 1 && events[q] == Reconciles(id)
  {
  }

  lemma DoubtIsReconciled(c: Course, n: nat, p: nat, q: nat, id: WorkerId, x: nat)
    requires IsRun(c.run, c.events) && n < p < q < |c.events| && Looks(c.run, c.events, p, q, id, c.app)
    requires InDoubt(c.run[n + 1].db, c.app, x) && Unmoved(c.events, c.app, n + 1, q) && c.events[q] == Reconciles(id)
    ensures Reconciled(c, p, q, x)
  {
    UnmovedDoubt(c.run, c.events, n + 1, q, c.app, x);
    RunKeepsInv(c.run, c.events, q);
    assert c.run[q + 1] == Step(c.run[q], c.events[q]);
    hide InDoubt, Decided, Step, Looks, Unmoved, WorldInv, HasRecord, IsRun;
    if InDoubt(c.run[q].db, c.app, x) {
      DoubtIsUndecided(c.run[q].db, c.app, x);
      ReconciliationFollowsTheRecord(c.run, c.events, p, q, id, c.app, x);
    } else {
      StepKeepsDoubt(c.run[q], c.events[q], c.app, x);
      DecidedIsConfirmed(c.run[q].db, c.app, x);
      DecidedIsConfirmed(c.run[q + 1].db, c.app, x);
      AcceptedHasRecord(c.run[q], c.app, x);
    }
  }

  lemma DecidedIsConfirmed(d: Db, a: AppId, x: nat)
    requires Decided(d, a, x)
    ensures a in d.apps && d.apps[a].state == Confirmed
    ensures x < |d.attempts| && d.attempts[x].app == a && d.attempts[x].state == Accepted
  {
  }

  lemma DoubtIsUndecided(d: Db, a: AppId, x: nat)
    requires InDoubt(d, a, x)
    ensures !Decided(d, a, x)
  {
  }

  /** After the decision at `q` the application shows whether attempt `x` was accepted. */
  ghost predicate Reconciled(c: Course, p: nat, q: nat, x: nat) {
    && p < |c.run| && q + 1 < |c.run|
    && var d, e := c.run[q].db, c.run[q + 1].db;
       && c.app in e.apps && e.apps[c.app].state in {Confirmed, NeedsReview}
       && (Decided(e, c.app, x) <==> e.apps[c.app].state == Confirmed)
       && (e.apps[c.app].state == Confirmed <==> HasRecord(c.run[p], c.app) || Decided(d, c.app, x))
       && (Decided(d, c.app, x) ==> HasRecord(c.run[q], c.app))
  }

  // ---- No second action ----

  /** Once an application has a final action, no continuation ever gives it another attempt. */
  lemma NoSecondAttempt(w: World, events: seq<Event>, a: AppId, x: nat, y: nat)
    requires WorldInv(w) && Actual(w.db, a, x)
    requires |w.db.attempts| <= y < |RunFrom(w, events).db.attempts|
    ensures RunFrom(w, events).db.attempts[y].app != a
  {
    hide RunFrom;
    RunFromKeeps(w, events);
    StillActual(w, RunFrom(w, events), a, x);
  }

  /** The lease attempt `i` was recorded under is over. */
  ghost predicate LeaseOver(d: Db, i: nat) {
    && i < |d.attempts| && d.attempts[i].intent < |d.intents|
    && var intent := d.intents[d.attempts[i].intent];
       && intent.task < |d.tasks| && intent.fence == d.attempts[i].fence && intent.fence <= d.nextFence
       && !(d.tasks[intent.task].state == Leased && d.tasks[intent.task].fence == intent.fence)
  }

  /** Attempts of `d` that are blocked in `e` already were in `d`. */
  ghost predicate NoneBlocked(d: Db, e: Db) {
    |d.attempts| <= |e.attempts| && forall i :: 0 <= i < |d.attempts| && e.attempts[i].state == Blocked ==>
        d.attempts[i].state == Blocked
  }

  lemma RecoverBlocksNone(d: Db, u: nat, cancelled: bool)
    requires u < |d.tasks|
    ensures NoneBlocked(d, Recover(d, u, cancelled))
  {
  }

  lemma {:induction false} RecoveriesBlockNone(d: Db, n: nat)
    requires n <= |d.tasks|
    ensures NoneBlocked(d, RecoverExpired(d, n)) && NoneBlocked(d, RecoverSubmits(d, n))
  {
    hide Recover;
    if n > 0 {
      RecoveriesBlockNone(d, n - 1);
      RecoverBlocksNone(RecoverExpired(d, n - 1), n - 1, false);
      RecoverBlocksNone(RecoverSubmits(d, n - 1), n - 1, true);
    }
  }

  lemma ClaimBlocksNone(d: Db, worker: WorkerId, kinds: set<Kind>, leaseMs: nat, concurrency: nat)
    ensures NoneBlocked(d, Claim(d, worker, kinds, leaseMs, concurrency).0)
  {
    RecoveriesBlockNone(d, |d.tasks|);
    hide RecoverExpired, CanClaim, Best;
  }

  lemma QueueStepBlocksNone(w: World, e: Event)
    requires !OfWorker(e)
    ensures NoneBlocked(w.db, Step(w, e).db)
  {
    hide Recover, RecoverSubmits, Claim;
    match e
    case Controls(paused, stopped) =>
      RecoveriesBlockNone(w.db.(paused := paused, stopped := stopped), |w.db.tasks|);
    case Cancels(u) =>
      if u < |w.db.tasks| {
        RecoverBlocksNone(w.db, u, true);
      }
    case Claims(id, kinds, leaseMs, concurrency) => ClaimBlocksNone(w.db, id, kinds, leaseMs, concurrency);
    case _ =>
  }

  /** A worker blocks only an attempt whose lease stands. */
  lemma WorkerStepBlocks(w: World, id: WorkerId, p: Phase, e: Event, i: nat)
    requires LeaseOver(w.db, i) && w.db.attempts[i].state != Blocked
    requires |w.db.attempts| <= |WorkerStep(w, id, p, e).db.attempts|
    ensures WorkerStep(w, id, p, e).db.attempts[i].state != Blocked
  {
    hide Recover;
    if e.Fails? && p.lease.task < |w.db.tasks| {
      RecoverBlocksNone(w.db, p.lease.task, false);
    }
  }

  lemma StepKeepsOver(w: World, e: Event, i: nat)
    requires WorldInv(w) && QueueInv(w.db) && LeaseOver(w.db, i) && w.db.attempts[i].state != Blocked
    ensures LeaseOver(Step(w, e).db, i) && Step(w, e).db.attempts[i].state != Blocked
  {
    StepProgresses(w, e);
    StepKeepsQueue(w, e);
    var d, v := w.db, Step(w, e);
    assert Continues(d.attempts[i], v.db.attempts[i]);
    var intent := d.intents[d.attempts[i].intent];
    hide QueueInv, WorldInv, WorkerStep;
    if !OfWorker(e) {
      QueueStepBlocksNone(w, e);
    } else if e.worker in w.workers {
      assert v == WorkerStep(w, e.worker, w.workers[e.worker], e);
      WorkerStepBlocks(w, e.worker, w.workers[e.worker], e, i);
    }
    hide Step;
    if v.db.tasks[intent.task].state == Leased && v.db.tasks[intent.task].fence == intent.fence {
      LeasedBefore(w, e, intent.task, intent.fence);
    }
  }

  lemma {:induction false} OverStaysOver(run: seq<World>, events: seq<Event>, n: nat, p: nat, i: nat)
    requires IsRun(run, events) && QueueInv(run[0].db) && n <= p < |run|
    requires LeaseOver(run[n].db, i) && run[n].db.attempts[i].state != Blocked
    ensures LeaseOver(run[p].db, i) && run[p].db.attempts[i].state != Blocked
  {
    hide Step, WorldInv, QueueInv, LeaseOver;
    if n < p {
      OverStaysOver(run, events, n, p - 1, i);
      RunKeepsInv(run, events, p - 1);
      LeasesExclude(run, events, p - 1);
      OverHas(run[p - 1].db, i);
      StepKeepsOver(run[p - 1], events[p - 1], i);
      OverHas(run[p].db, i);
    } else {
      OverHas(run[p].db, i);
    }
  }

  lemma OverHas(d: Db, i: nat)
    requires LeaseOver(d, i)
    ensures i < |d.attempts|
  {
  }

  /**
   Once the lease of an intent is over, an attempt that was not blocked under it stays the application's last, in
   every continuation and under any queue keys, whatever other repositories do.
   */
  lemma IntentIsNotReplayed(run: seq<World>, events: seq<Event>, n: nat, p: nat, i: nat, y: nat)
    requires IsRun(run, events) && QueueInv(run[0].db) && n <= p < |run|
    requires LeaseOver(run[n].db, i) && run[n].db.attempts[i].state != Blocked
    requires i < y < |run[p].db.attempts|
    ensures run[p].db.attempts[y].app != run[n].db.attempts[i].app
  {
    OverStaysOver(run, events, n, p, i);
    RunExtends(run, events, n, p);
    RunKeepsInv(run, events, p);
    var d := run[p].db;
    assert OneFinalAction(d);
    hide IsRun, QueueInv, WorldInv, Step;
    assert Continues(run[n].db.attempts[i], d.attempts[i]);
  }

  /** A recovering claim ends the lease it finds expired, with the intent recorded under it. */
  lemma RecoveryEndsTheLease(run: seq<World>, events: seq<Event>, n: nat, t: nat, a: AppId, f: nat, i: nat)
    requires IsRun(run, events) && QueueInv(run[0].db) && n < |events| && Recovers(run[n], events[n])
    requires Held(run[n].db, t, a, f) && run[n].db.tasks[t].until <= run[n].db.now && Own(run[n].db, a, f, i)
    ensures LeaseOver(run[n + 1].db, i)
  {
    RunKeepsInv(run, events, n);
    LeasesExclude(run, events, n);
    FencesNameLeases(run, events, n);
    var w, e := run[n], events[n];
    var d, h := w.db, Recovered(w.db);
    assert DbInv(d) && AttemptsOwn(d) && AttemptOwn(d, i) && run[n + 1] == Step(w, e);
    RunExtends(run, events, n, n + 1);
    RecoveryFollowsTheApplication(d, t, a, f);
    RecoveredQuietly(d);
    RecoveryThenGrant(w, e);
    assert Continues(d.attempts[i], Step(w, e).db.attempts[i]);
    assert f <= d.nextFence && Kept(d.tasks[t], h.tasks[t]);
    hide IsRun, QueueInv, WorldInv, DbInv, AttemptsOwn, Step, Recovered, Recovers;
    hide Closes, Quiet, SameRows, Requeued, Retried;
    assert h.tasks[t].state != Leased;
  }
}
