/**
 What a claim grants, in terms of the queue alone, and the limit on concurrent leases over whole runs
 (packages/persistence/src/repository.ts).
 */
module SubmissionCapacity {
  import opened Outcome
  import opened SubmissionDb
  import opened SubmissionProtocol
  import opened SubmissionQueue
  import opened SubmissionCrash
  import opened SubmissionFences
  import opened SubmissionOutcome

  ghost function LeasedTasks(d: Db): set<nat> {
    LeasedBelow(d, |d.tasks|)
  }

  ghost function LeasedBelow(d: Db, n: nat): set<nat> {
    set t: nat | t < n && t < |d.tasks| && d.tasks[t].state == Leased
  }

  lemma {:induction false} CountIsSize(d: Db, n: nat)
    requires n <= |d.tasks|
    ensures LeasedCount(d, n) == |LeasedBelow(d, n)|
  {
    if n == 0 {
      assert LeasedBelow(d, 0) == {};
    } else {
      var m: nat := n - 1;
      CountIsSize(d, m);
      if d.tasks[m].state == Leased {
        assert LeasedBelow(d, n) == LeasedBelow(d, m) + {m};
      } else {
        assert LeasedBelow(d, n) == LeasedBelow(d, m);
      }
    }
  }

  /** A task whose time has come, of a kind that is asked for and not stopped, that no lease stands in the way of. */
  ghost predicate Eligible(d: Db, kinds: set<Kind>, t: nat) {
    && t < |d.tasks|
    && var task := d.tasks[t];
       && (task.state == Queued || task.state == RetryWait) && task.runAfter <= d.now
       && task.kind in kinds && !d.stopped && (d.paused ==> task.kind != Submit)
       && (forall u :: u in LeasedTasks(d) ==> d.tasks[u].domain != task.domain)
       && (forall u :: u in LeasedTasks(d) && task.app.Some? ==> d.tasks[u].app != task.app)
       && (task.kind == Submit && task.app.Some? && task.app.value in d.apps ==>
             d.apps[task.app.value].state !in
             {InFlight, Unknown, Reconciling, NeedsReview, Confirmed, HistoricalSubmitted, Closed, Skipped, Duplicate})
  }

  lemma EligibleIsClaimable(d: Db, kinds: set<Kind>, t: nat)
    requires t < |d.tasks|
    ensures CanClaim(d, Allowed(d, kinds), t) <==> Eligible(d, kinds, t)
  {
    forall u: nat | u < |d.tasks|
      ensures u in LeasedTasks(d) <==> d.tasks[u].state == Leased
    {
    }
    if CanClaim(d, Allowed(d, kinds), t) {
      assert d.tasks[t].kind in Allowed(d, kinds);
    }
    if Eligible(d, kinds, t) {
      assert d.tasks[t].kind in Allowed(d, kinds);
      forall u | 0 <= u < |d.tasks| && d.tasks[u].state == Leased
        ensures d.tasks[u].domain != d.tasks[t].domain && (d.tasks[u].app.None? || d.tasks[u].app != d.tasks[t].app)
      {
        assert u in LeasedTasks(d);
      }
    }
  }

  /**
   A claim grants a lease exactly when, after recovery, fewer than
   `concurrency` tasks are leased and one is eligible.
   */
  lemma ClaimGrantsExactlyWhen(d: Db, worker: WorkerId, kinds: set<Kind>, leaseMs: nat, concurrency: nat)
    ensures var h, lease := Recovered(d), Claim(d, worker, kinds, leaseMs, concurrency).1;
            && (lease.Some? <==>
                  && 1000 <= leaseMs <= 300000 && 1 <= concurrency <= 20
                  && |LeasedTasks(h)| < concurrency && exists t: nat :: Eligible(h, kinds, t))
            && (lease.Some? ==> Eligible(h, kinds, lease.value.task))
  {
    hide RecoverExpired, CanClaim;
    var h := Recovered(d);
    CountIsSize(h, |h.tasks|);
    forall t: nat | t < |h.tasks|
      ensures CanClaim(h, Allowed(h, kinds), t) <==> Eligible(h, kinds, t)
    {
      EligibleIsClaimable(h, kinds, t);
    }
    if t: nat :| Eligible(h, kinds, t) {
      assert h.tasks[t].kind in kinds && h.tasks[t].kind in Allowed(h, kinds);
    }
  }

  // ---- Over whole runs ----

  lemma SubsetIsSmaller(a: set<nat>, b: set<nat>)
    requires a <= b
    ensures |a| <= |b|
  {
    assert b == a + (b - a);
  }

  lemma QuietLeasesNothing(d: Db, e: Db)
    requires Quiet(d, e)
    ensures LeasedTasks(e) <= LeasedTasks(d) && |LeasedTasks(e)| <= |LeasedTasks(d)|
  {
    forall t | t in LeasedTasks(e)
      ensures t in LeasedTasks(d)
    {
      assert t < |d.tasks| && Kept(d.tasks[t], e.tasks[t]);
    }
    SubsetIsSmaller(LeasedTasks(e), LeasedTasks(d));
  }

  lemma GrantLeasesOne(d: Db, t: nat, worker: WorkerId, leaseMs: nat)
    requires t < |d.tasks|
    ensures |LeasedTasks(Grant(d, t, worker, leaseMs))| <= |LeasedTasks(d)| + 1
  {
    var e := Grant(d, t, worker, leaseMs);
    assert LeasedTasks(e) == LeasedTasks(d) + {t};
  }

  lemma ClaimStaysWithin(w: World, e: Event, c: nat)
    requires e.Claims? && e.concurrency <= c && |LeasedTasks(w.db)| <= c
    ensures |LeasedTasks(Step(w, e).db)| <= c
  {
    RecoveriesAreQuiet(w.db, |w.db.tasks|);
    QuietLeasesNothing(w.db, Recovered(w.db));
    ClaimStepDb(w, e);
    ClaimIsRecoveryAndGrant(w.db, e.worker, e.kinds, e.leaseMs, e.concurrency);
    ClaimGrantsExactlyWhen(w.db, e.worker, e.kinds, e.leaseMs, e.concurrency);
    hide Step, Claim, Recovered, Grant, Eligible, Quiet, CanClaim;
    var lease := Claim(w.db, e.worker, e.kinds, e.leaseMs, e.concurrency).1;
    if lease.Some? {
      GrantLeasesOne(Recovered(w.db), lease.value.task, e.worker, e.leaseMs);
    }
  }

  lemma StepStaysWithin(w: World, e: Event, c: nat)
    requires (e.Claims? ==> e.concurrency <= c) && |LeasedTasks(w.db)| <= c
    ensures |LeasedTasks(Step(w, e).db)| <= c
  {
    hide LeasedTasks;
    if e.Claims? {
      ClaimStaysWithin(w, e, c);
    } else if e.Begins? {
      BeginLeasesNothing(w, e);
    } else {
      StepIsQuiet(w, e);
      hide Step;
      QuietLeasesNothing(w.db, Step(w, e).db);
    }
  }

  lemma BeginLeasesNothing(w: World, e: Event)
    requires e.Begins?
    ensures LeasedTasks(Step(w, e).db) == LeasedTasks(w.db)
  {
    assert Step(w, e).db.tasks == w.db.tasks;
  }

  /** In every run whose claims ask for at most `c` leases at once, at most `c` tasks are leased at any moment. */
  lemma {:induction false} LeasesStayWithin(run: seq<World>, events: seq<Event>, c: nat, n: nat)
    requires IsRun(run, events) && n < |run| && |LeasedTasks(run[0].db)| <= c
    requires forall k :: 0 <= k < |events| && events[k].Claims? ==> events[k].concurrency <= c
    ensures |LeasedTasks(run[n].db)| <= c
  {
    hide Step, LeasedTasks;
    if n > 0 {
      LeasesStayWithin(run, events, c, n - 1);
      StepStaysWithin(run[n - 1], events[n - 1], c);
    }
  }
}
