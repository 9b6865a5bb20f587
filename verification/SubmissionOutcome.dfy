/**
 What recovery makes of an abandoned submit lease, exactly, whatever other repositories did meanwhile, and what
 follows it: the work offered, the retry, the reconciliation (scripts/commit-crash-run.ts,
 packages/persistence/src/repository.ts).
 */
module SubmissionOutcome {
  import opened Outcome
  import opened SubmissionDb
  import opened SubmissionProtocol
  import opened SubmissionRecovery
  import opened SubmissionQueue
  import opened SubmissionCrash
  import opened SubmissionFences

  // ---- What recovery makes of any lease ----

  lemma RecoverKeepsIntents(d: Db, u: nat)
    requires u < |d.tasks|
    ensures Recover(d, u, false).intents == d.intents
  {
  }

  lemma {:induction false} RecoveriesKeepIntents(d: Db, n: nat)
    requires n <= |d.tasks|
    ensures RecoverExpired(d, n).intents == d.intents
  {
    hide Recover;
    if n > 0 {
      RecoveriesKeepIntents(d, n - 1);
      RecoverKeepsIntents(RecoverExpired(d, n - 1), n - 1);
    }
  }

  /** A lease's own pre-dispatch abort is the same before and after its turn. */
  lemma SameStop(d: Db, e: Db, t: nat, a: AppId)
    requires SameRows(d, e, a) && e.intents == d.intents && t < |d.tasks| && t < |e.tasks|
    requires d.tasks[t].app == Option.Some(a) && e.tasks[t] == d.tasks[t]
    ensures StoppedBeforeDispatch(e, t) <==> StoppedBeforeDispatch(d, t)
  {
    if i: nat :| i < |d.attempts| && StoppedAt(d, t, i) {
      assert StoppedAt(e, t, i);
    }
    if i: nat :| i < |e.attempts| && StoppedAt(e, t, i) {
      assert StoppedAt(d, t, i);
    }
  }

  /** A submit of an application in doubt ends as reconciliation work. */
  lemma DoubtIsQueued(e: Db, t: nat, a: AppId, f: nat)
    requires QueueInv(e) && Held(e, t, a, f) && Uncertainty(e.apps[a].state)
    ensures var g := Recover(e, t, false);
            && |g.tasks| == |e.tasks| + 1 && g.tasks[|e.tasks|] == ReconcileTask(t, e.tasks[t], a, e.now)
            && g.tasks[t].state == Cancelled
  {
    NoKeyYet(e, t, a);
  }

  lemma CertainIsSettled(e: Db, t: nat, a: AppId, f: nat)
    requires Held(e, t, a, f) && !Uncertainty(e.apps[a].state)
    ensures var s := e.apps[a].state;
            if s == Confirmed || (s == Unsupported && StoppedBeforeDispatch(e, t))
            then Recover(e, t, false) == SetTask(e, t, Completed, e.tasks[t].runAfter)
            else Recover(e, t, false) == SetTask(e, t, Again(e.tasks[t]), e.now)
  {
  }

  /** A reconciliation of task `t` was queued by the recovery. */
  ghost predicate Requeued(d: Db, h: Db, t: nat, a: AppId) {
    t < |d.tasks| && exists r :: |d.tasks| <= r < |h.tasks| && h.tasks[r] == ReconcileTask(t, d.tasks[t], a, d.now)
  }

  /** The lease's task is finished without doubt. */
  ghost predicate Closes(d: Db, t: nat, a: AppId) {
    && t < |d.tasks| && a in d.apps
    && (d.apps[a].state == Confirmed || (d.apps[a].state == Unsupported && StoppedBeforeDispatch(d, t)))
  }

  /**
   Whatever the rows say, recovering an expired submit lease follows the state of its application: reconciliation
   exactly when that is uncertain, completion exactly when it is confirmed or unsupported after an abort under
   this very lease, and a retry, or a dead task after the last attempt, otherwise.
   */
  lemma RecoveryFollowsTheApplication(d: Db, t: nat, a: AppId, f: nat)
    requires QueueInv(d) && Held(d, t, a, f) && d.tasks[t].until <= d.now
    ensures var s, h := d.apps[a].state, Recovered(d);
            && t < |h.tasks|
            && (h.tasks[t].state == Cancelled <==> Uncertainty(s))
            && (h.tasks[t].state == Completed <==> Closes(d, t, a))
            && (h.tasks[t].state in {RetryWait, Dead} <==> !Uncertainty(s) && !Closes(d, t, a))
            && (Uncertainty(s) ==> Requeued(d, h, t, a))
            && (!Uncertainty(s) ==> SameRows(d, h, a))
            && (!Uncertainty(s) && !Closes(d, t, a) ==> Retried(d, h, t))
  {
    OwnTurn(d, t, a, f);
    RecoveriesKeepIntents(d, t);
    var e, h := RecoverExpired(d, t), Recovered(d);
    hide RecoverExpired, Recovered, QueueInv, Recover;
    SameStop(d, e, t, a);
    var g := Recover(e, t, false);
    if Uncertainty(d.apps[a].state) {
      DoubtIsQueued(e, t, a, f);
      assert h.tasks[|e.tasks|] == g.tasks[|e.tasks|];
    } else {
      hide StoppedBeforeDispatch;
      CertainIsSettled(e, t, a, f);
      SettledRows(d, e, g, h, t, a);
    }
  }

  lemma SettledRows(d: Db, e: Db, g: Db, h: Db, t: nat, a: AppId)
    requires SameRows(d, e, a) && t < |e.tasks| && (exists s, r :: g == SetTask(e, t, s, r)) && SameRows(g, h, a)
    ensures SameRows(d, h, a)
  {
    SameRowsTrans(d, e, g, a);
    SameRowsTrans(d, g, h, a);
  }

  /**
   With no intent recorded, the task is retried exactly when nobody
   moved the application into an uncertain or confirmed state.
   */
  lemma UnrecordedIsRetriedExactlyWhen(d: Db, t: nat, a: AppId, f: nat)
    requires QueueInv(d) && Held(d, t, a, f) && d.tasks[t].until <= d.now && NoIntent(d, a, f)
    ensures var h := Recovered(d);
            && t < |h.tasks|
            && (h.tasks[t].state in {RetryWait, Dead} <==>
                 !Uncertainty(d.apps[a].state) && d.apps[a].state != Confirmed)
  {
    RecoveryFollowsTheApplication(d, t, a, f);
    hide Recovered, QueueInv;
    NoIntentNoStop(d, t, a, f);
  }

  lemma NoIntentNoStop(d: Db, t: nat, a: AppId, f: nat)
    requires Held(d, t, a, f) && NoIntent(d, a, f)
    ensures !StoppedBeforeDispatch(d, t)
  {
    forall i: nat | i < |d.attempts|
      ensures !StoppedAt(d, t, i)
    {
      assert !Own(d, a, f, i);
    }
  }

  // ---- When that is what the intent calls for ----

  /** The application still shows what the lease's rows say. */
  ghost predicate Agrees(d: Db, a: AppId, f: nat) {
    && a in d.apps
    && var s := d.apps[a].state;
       && (OwnIn(d, a, f, {Flying, Uncertain}) ==> Uncertainty(s))
       && (OwnIn(d, a, f, {Blocked}) ==> s in {Confirmed, Unsupported})
       && (OwnIn(d, a, f, {Accepted}) ==> s == Confirmed)
       && (NoIntent(d, a, f) || OwnIn(d, a, f, {Rejected}) ==> !Uncertainty(s) && s != Confirmed)
  }

  /** The lease's own attempt is the only one at its fence, and its pre-dispatch abort is what `Blocked` records. */
  lemma OwnStop(d: Db, t: nat, a: AppId, f: nat, i: nat)
    requires DbInv(d) && AttemptsOwn(d) && Held(d, t, a, f) && Own(d, a, f, i)
    ensures forall j: nat :: Own(d, a, f, j) ==> j == i
    ensures StoppedBeforeDispatch(d, t) <==> d.attempts[i].state == Blocked
  {
    forall j: nat | Own(d, a, f, j)
      ensures j == i
    {
      assert j < i || i < j || i == j;
    }
    assert AttemptOwn(d, i);
    assert t == d.intents[d.attempts[i].intent].task;
    if d.attempts[i].state == Blocked {
      assert StoppedAt(d, t, i);
    }
    forall j: nat | j < |d.attempts| && StoppedAt(d, t, j)
      ensures d.attempts[i].state == Blocked
    {
      assert Own(d, a, f, j);
    }
  }

  lemma FollowsExactly(d: Db, h: Db, t: nat, a: AppId, f: nat)
    requires DbInv(d) && AttemptsOwn(d) && Held(d, t, a, f) && t < |h.tasks|
    requires h.tasks[t].state == Cancelled <==> Uncertainty(d.apps[a].state)
    requires h.tasks[t].state == Completed <==> Closes(d, t, a)
    requires h.tasks[t].state in {RetryWait, Dead} <==> !Uncertainty(d.apps[a].state) && !Closes(d, t, a)
    ensures FollowsIntent(d, h, t, a, f) <==> Agrees(d, a, f)
  {
    hide DbInv, AttemptsOwn;
    if i: nat :| Own(d, a, f, i) {
      OwnStop(d, t, a, f, i);
      hide StoppedBeforeDispatch;
      forall states: set<AttemptState>
        ensures OwnIn(d, a, f, states) <==> d.attempts[i].state in states
      {
      }
    } else {
      NoIntentNoStop(d, t, a, f);
    }
  }

  /**
   In every run, whatever other repositories did to the application while the submit was leased: recovering the
   expired lease follows its intent exactly when the application still shows what the lease's rows say.
   */
  lemma FollowsIntentExactlyWhen(run: seq<World>, events: seq<Event>, n: nat, t: nat, a: AppId, f: nat)
    requires IsRun(run, events) && QueueInv(run[0].db) && n < |run|
    requires Held(run[n].db, t, a, f) && run[n].db.tasks[t].until <= run[n].db.now
    ensures FollowsIntent(run[n].db, Recovered(run[n].db), t, a, f) <==> Agrees(run[n].db, a, f)
  {
    RunKeepsInv(run, events, n);
    LeasesExclude(run, events, n);
    FencesNameLeases(run, events, n);
    var d := run[n].db;
    assert DbInv(d) && AttemptsOwn(d);
    hide *;
    RecoveryFollowsTheApplication(d, t, a, f);
    FollowsExactly(d, Recovered(d), t, a, f);
  }

  /**
   The input that fails: an attempt under the lease was aborted or definitively rejected and another repository
   then puts the application up for review. Recovery cancels the submit and queues a reconciliation, with nothing
   in doubt.
   */
  lemma ReviewUnsettles(d: Db, t: nat, a: AppId, f: nat)
    requires QueueInv(d) && Held(d, t, a, f) && d.tasks[t].until <= d.now && OwnIn(d, a, f, {Rejected, Blocked})
    requires forall i, j :: Own(d, a, f, i) && Own(d, a, f, j) ==> i == j
    ensures var m := MoveApplication(d, a, NeedsReview); var h := Recovered(m);
            && t < |h.tasks| && h.tasks[t].state == Cancelled && Requeued(m, h, t, a)
            && !OwnIn(m, a, f, {Flying, Uncertain}) && !FollowsIntent(m, h, t, a, f)
  {
    var m := MoveApplication(d, a, NeedsReview);
    var i: nat :| Own(d, a, f, i) && d.attempts[i].state in {Rejected, Blocked};
    forall j: nat
      ensures Own(m, a, f, j) <==> Own(d, a, f, j)
    {
    }
    MoveKeepsQueue(d, a);
    RecoveryFollowsTheApplication(m, t, a, f);
  }

  lemma MoveKeepsQueue(d: Db, a: AppId)
    requires QueueInv(d)
    ensures QueueInv(MoveApplication(d, a, NeedsReview))
  {
    SameQueueIsQuiet(d, MoveApplication(d, a, NeedsReview));
    QuietKeepsQueue(d, MoveApplication(d, a, NeedsReview));
  }

  // ---- The work recovery offers ----

  /**
   The lease that ran out shared its domain and application with no
   other, so nothing stands in the way of what replaces it.
   */
  lemma NothingInTheWay(d: Db, h: Db, t: nat, r: nat)
    requires Exclusive(d) && Quiet(d, h) && t < |d.tasks| && d.tasks[t].state == Leased && h.tasks[t].state != Leased
    requires r < |h.tasks| && h.tasks[r].domain == d.tasks[t].domain && h.tasks[r].app == d.tasks[t].app
    ensures Unobstructed(h, r)
  {
    forall u | 0 <= u < |h.tasks| && h.tasks[u].state == Leased
      ensures h.tasks[u].domain != h.tasks[r].domain && (h.tasks[u].app.None? || h.tasks[u].app != h.tasks[r].app)
    {
      assert u < |d.tasks| && Kept(d.tasks[u], h.tasks[u]);
    }
  }

  lemma RecoveredQuietly(d: Db)
    ensures Quiet(d, Recovered(d)) && Recovered(d).now == d.now
  {
    RecoveriesAreQuiet(d, |d.tasks|);
    RecoveriesKeepClock(d, |d.tasks|);
  }

  /**
   The right work can be claimed at once: a submit to be retried exactly when its application is not decided or
   in doubt, and its reconciliation whenever the submit was cancelled.
   */
  lemma RightWorkIsOffered(d: Db, t: nat, a: AppId, f: nat)
    requires QueueInv(d) && Held(d, t, a, f) && d.tasks[t].until <= d.now
    ensures var h := Recovered(d);
            && t < |h.tasks| && a in h.apps
            && (h.tasks[t].state == RetryWait ==>
                 h.apps[a] == d.apps[a] && (CanClaim(h, {Submit}, t) <==> !Final(d.apps[a].state)))
            && (h.tasks[t].state == Cancelled ==>
                  exists r :: |d.tasks| <= r < |h.tasks| && h.tasks[r] == ReconcileTask(t, d.tasks[t], a, d.now)
                        && CanClaim(h, {Reconcile}, r))
  {
    RecoveryFollowsTheApplication(d, t, a, f);
    RecoveredQuietly(d);
    RecoveriesKeepApps(d, |d.tasks|, a);
    var h := Recovered(d);
    assert a in h.apps;
    hide Recovered, RecoverExpired;
    if h.tasks[t].state == RetryWait {
      hide Closes;
      NothingInTheWay(d, h, t, t);
    } else if h.tasks[t].state == Cancelled {
      var r :| |d.tasks| <= r < |h.tasks| && h.tasks[r] == ReconcileTask(t, d.tasks[t], a, d.now);
      NothingInTheWay(d, h, t, r);
    }
  }

  predicate Admits(leaseMs: nat, concurrency: nat) {
    1000 <= leaseMs <= 300000 && 1 <= concurrency <= 20
  }

  /** A claim that may lease takes work at least as urgent as anything recovery left to be claimed. */
  lemma ClaimTakesTheMostUrgent(d: Db, worker: WorkerId, kinds: set<Kind>, leaseMs: nat, concurrency: nat, t: nat)
    requires var h := Recovered(d);
             && Admits(leaseMs, concurrency) && LeasedCount(h, |h.tasks|) < concurrency
             && t < |h.tasks| && CanClaim(h, Allowed(h, kinds), t)
    ensures var h, lease := Recovered(d), Claim(d, worker, kinds, leaseMs, concurrency).1;
            && lease.Some? && lease.value.task < |h.tasks| && CanClaim(h, Allowed(h, kinds), lease.value.task)
            && h.tasks[lease.value.task].priority >= h.tasks[t].priority
  {
    hide RecoverExpired;
    var h := Recovered(d);
    assert h.tasks[t].kind in Allowed(h, kinds);
  }

  // ---- The retry ----

  /** A worker leases the lapsed submit `t` again, in the step that recovers it. */
  ghost predicate LeasesAgain(w: World, e: Event, t: nat) {
    e.Claims? && e.worker !in w.workers && e.worker in Step(w, e).workers
      && Step(w, e).workers[e.worker].lease.task == t
  }

  /**
   A replacement that leases the submit again has a larger fence, and can begin exactly when the application stood
   ready at the expected revision and had no final action when the lease ran out.
   */
  lemma ReplacementBeginsExactlyWhen(w: World, e: Event, t: nat, a: AppId, f: nat, revision: nat)
    requires QueueInv(w.db) && Held(w.db, t, a, f) && w.db.tasks[t].until <= w.db.now && LeasesAgain(w, e, t)
    ensures var u := Step(w, e); var l := u.workers[e.worker].lease;
            && l.fence > f
            && (Begin(u.db, l, revision, true).Some? <==>
                  w.db.apps[a].state == Ready && w.db.apps[a].revision == revision && !PriorFinalAction(w.db, a))
  {
    var h := Recovered(w.db);
    RecoveryFollowsTheApplication(w.db, t, a, f);
    RecoveredQuietly(w.db);
    ClaimStepIs(w, e);
    ClaimIsRecoveryAndGrant(w.db, e.worker, e.kinds, e.leaseMs, e.concurrency);
    assert f <= w.db.nextFence;
    assert Kept(w.db.tasks[t], h.tasks[t]);
    hide Step, Claim, Recovered, QueueInv, Quiet, Kept, Closes;
    assert h.tasks[t].state == RetryWait && SameRows(w.db, h, a);
    SamePrior(w.db, h, a);
    hide PriorFinalAction, SameRows, Retried;
    RetryBegins(h, t, a, e.worker, e.kinds, e.leaseMs, revision);
  }

  lemma SamePrior(d: Db, h: Db, a: AppId)
    requires SameRows(d, h, a)
    ensures PriorFinalAction(h, a) <==> PriorFinalAction(d, a)
    ensures a in d.apps && a in h.apps && h.apps[a] == d.apps[a]
  {
    if i :| 0 <= i < |h.attempts| && h.attempts[i].app == a && Counts(h.attempts[i]) {
      assert i < |d.attempts| && d.attempts[i] == h.attempts[i];
    }
    if i :| 0 <= i < |d.attempts| && d.attempts[i].app == a && Counts(d.attempts[i]) {
      assert h.attempts[i] == d.attempts[i];
    }
  }

  lemma RetryBegins(h: Db, t: nat, a: AppId, id: WorkerId, kinds: set<Kind>, leaseMs: nat, revision: nat)
    requires t < |h.tasks| && h.tasks[t].kind == Submit && h.tasks[t].app == Option.Some(a) && a in h.apps
    requires CanClaim(h, Allowed(h, kinds), t) && leaseMs >= 1000
    ensures Begin(Grant(h, t, id, leaseMs), Lease(t, h.nextFence + 1, id), revision, true).Some? <==>
              h.apps[a].state == Ready && h.apps[a].revision == revision && !PriorFinalAction(h, a)
  {
    assert PriorFinalAction(Grant(h, t, id, leaseMs), a) <==> PriorFinalAction(h, a);
    hide PriorFinalAction;
    assert Submit in Allowed(h, kinds);
  }

  /** So with no intent recorded and no move, the replacement can begin whatever the first worker could. */
  lemma RetryStandsWhereTheFirstStood(c: Course, n: nat, e: Event, revision: nat)
    requires IsCourse(c) && RunOut(c, n) && Undisturbed(c, n) && NoIntent(c.run[n].db, c.app, c.fence)
    requires LeasesAgain(c.run[n], e, c.task)
    requires Begin(c.run[c.start + 1].db, Lease(c.task, c.fence, c.events[c.start].worker), revision, true).Some?
    ensures var u := Step(c.run[n], e); var l := u.workers[e.worker].lease;
            l.fence > c.fence && Begin(u.db, l, revision, true).Some?
  {
    RowsTellTheStory(c, n);
    RunExtends(c.run, c.events, c.start + 1, n);
    LeasesExclude(c.run, c.events, n);
    var b, d := c.run[c.start + 1].db, c.run[n].db;
    assert Untold(d, c.task, c.app, c.fence, Start(c));
    NoPriorSince(b, d, c.app);
    var w, t, a, f := c.run[n], c.task, c.app, c.fence;
    assert Held(b, t, a, f);
    hide IsRun, LeaseBegins, QueueInv, Extends, LeasesAgain, PriorFinalAction, Step;
    ReplacementBeginsExactlyWhen(w, e, t, a, f, revision);
  }

  lemma NoPriorSince(b: Db, d: Db, a: AppId)
    requires Extends(b, d) && !PriorFinalAction(b, a)
    requires forall i :: 0 <= i < |d.attempts| && d.attempts[i].app == a ==> i < |b.attempts|
    ensures !PriorFinalAction(d, a)
  {
    forall i | 0 <= i < |d.attempts| && d.attempts[i].app == a
      ensures !Counts(d.attempts[i])
    {
      assert i < |b.attempts|;
      assert Continues(b.attempts[i], d.attempts[i]) && !Counts(b.attempts[i]);
    }
  }
}
