/**
 A fence names one lease for good: in every run at most one intent is recorded under it, bound to the task
 leased at it, and an intent outlives its lease (packages/persistence/src/submission-repository.ts).
 */
module SubmissionFences {
  import opened Outcome
  import opened SubmissionDb
  import opened SubmissionProtocol
  import opened SubmissionRecovery
  import opened SubmissionQueue
  import opened SubmissionCrash

  // ---- What fences tell ----

  /** Leases that workers remember have fences of their own, drawn for their task, unused while nothing was begun. */
  ghost predicate LeasesOwn(w: World) {
    && (forall id :: id in w.workers ==> LeaseOwn(w.db, w.workers[id]))
    && forall id, other :: id in w.workers && other in w.workers && id != other ==>
         w.workers[id].lease.fence != w.workers[other].lease.fence
  }

  ghost predicate LeaseOwn(d: Db, p: Phase) {
    && 1 <= p.lease.fence <= d.nextFence
    && (forall u :: 0 <= u < |d.tasks| && d.tasks[u].fence == p.lease.fence ==> u == p.lease.task)
    && (p.Holding? ==> forall i :: 0 <= i < |d.attempts| ==> d.attempts[i].fence != p.lease.fence)
  }

  /** Attempts have fences of their own, and a task at such a fence is the one the intent was recorded for. */
  ghost predicate AttemptsOwn(d: Db) {
    && (forall i :: 0 <= i < |d.attempts| ==> AttemptOwn(d, i))
    && forall i, j :: 0 <= i < j < |d.attempts| ==> d.attempts[i].fence != d.attempts[j].fence
  }

  ghost predicate AttemptOwn(d: Db, i: nat)
    requires i < |d.attempts|
  {
    && 1 <= d.attempts[i].fence <= d.nextFence && d.attempts[i].intent < |d.intents|
    && forall u :: 0 <= u < |d.tasks| && d.tasks[u].fence == d.attempts[i].fence ==>
         u == d.intents[d.attempts[i].intent].task
  }

  ghost predicate FenceInv(w: World) {
    LeasesOwn(w) && AttemptsOwn(w.db)
  }

  // ---- Every step keeps it ----

  lemma QuietKeepsLease(d: Db, e: Db, p: Phase, q: Phase)
    requires Quiet(d, e) && LeaseOwn(d, p) && q.lease == p.lease && (q.Holding? ==> p.Holding?)
    ensures LeaseOwn(e, q)
  {
    forall u | 0 <= u < |e.tasks| && e.tasks[u].fence == q.lease.fence
      ensures u == q.lease.task
    {
      assert u < |d.tasks| && Kept(d.tasks[u], e.tasks[u]);
    }
  }

  lemma QuietKeepsAttempts(d: Db, e: Db)
    requires Quiet(d, e) && AttemptsOwn(d) && Extends(d, e)
    ensures AttemptsOwn(e)
  {
    forall i | 0 <= i < |e.attempts|
      ensures AttemptOwn(e, i)
    {
      assert AttemptOwn(d, i) && Continues(d.attempts[i], e.attempts[i]);
      forall u | 0 <= u < |e.tasks| && e.tasks[u].fence == e.attempts[i].fence
        ensures u == e.intents[e.attempts[i].intent].task
      {
        assert u < |d.tasks| && Kept(d.tasks[u], e.tasks[u]);
      }
    }
  }

  /** Workers keep the leases they have; only a claim gives one, and only a claim lets one begin. */
  lemma WorkersKeepLeases(w: World, e: Event, id: WorkerId)
    requires !e.Claims? && id in Step(w, e).workers
    ensures id in w.workers && Step(w, e).workers[id].lease == w.workers[id].lease
    ensures Step(w, e).workers[id].Holding? ==> w.workers[id].Holding?
    ensures e.Begins? && id == e.worker && Step(w, e).workers[id].Holding? ==> Step(w, e) == w
  {
    hide Begin, AuthorizeDispatch, AbortBeforeDispatch, ConfirmReceipt, RecordRejection, ReconcileReceipt;
    hide Complete, Fail, Renew, Recover, RecoverSubmits;
  }

  lemma QuietStepKeepsFences(w: World, e: Event)
    requires FenceInv(w) && Extends(w.db, Step(w, e).db) && !e.Claims? && !e.Begins?
    ensures FenceInv(Step(w, e))
  {
    hide Step;
    var v := Step(w, e);
    StepIsQuiet(w, e);
    QuietKeepsAttempts(w.db, v.db);
    hide Quiet;
    forall id | id in v.workers
      ensures id in w.workers && v.workers[id].lease == w.workers[id].lease && LeaseOwn(v.db, v.workers[id])
    {
      WorkersKeepLeases(w, e, id);
      QuietKeepsLease(w.db, v.db, w.workers[id], v.workers[id]);
    }
  }

  lemma BeginKeepsLease(d: Db, l: Lease, revision: nat, permitted: bool, p: Phase, q: Phase)
    requires LeaseOwn(d, p) && q.lease == p.lease && (q.Holding? ==> p.Holding? && p.lease.fence != l.fence)
    requires Begin(d, l, revision, permitted).Some?
    ensures LeaseOwn(Begin(d, l, revision, permitted).value.0, q)
  {
  }

  lemma BeginKeepsAttempts(d: Db, l: Lease, revision: nat, permitted: bool)
    requires AttemptsOwn(d) && LeaseOwn(d, Holding(l)) && Begin(d, l, revision, permitted).Some?
    ensures AttemptsOwn(Begin(d, l, revision, permitted).value.0)
  {
    var e := Begin(d, l, revision, permitted).value.0;
    forall i | 0 <= i < |e.attempts|
      ensures AttemptOwn(e, i)
    {
      if i < |d.attempts| {
        assert AttemptOwn(d, i);
      }
    }
  }

  lemma BeginStepKeepsFences(w: World, e: Event)
    requires FenceInv(w) && e.Begins?
    ensures FenceInv(Step(w, e))
  {
    var v := Step(w, e);
    if v != w {
      var l := w.workers[e.worker].lease;
      assert w.workers[e.worker] == Holding(l) && v.db == Begin(w.db, l, e.revision, e.permitted).value.0;
      hide Step, Begin;
      BeginKeepsAttempts(w.db, l, e.revision, e.permitted);
      forall id | id in v.workers
        ensures id in w.workers && v.workers[id].lease == w.workers[id].lease && LeaseOwn(v.db, v.workers[id])
      {
        WorkersKeepLeases(w, e, id);
        BeginKeepsLease(w.db, l, e.revision, e.permitted, w.workers[id], v.workers[id]);
      }
    }
  }

  lemma GrantKeepsLease(d: Db, t: nat, worker: WorkerId, leaseMs: nat, p: Phase)
    requires LeaseOwn(d, p) && t < |d.tasks|
    ensures LeaseOwn(Grant(d, t, worker, leaseMs), p)
  {
  }

  lemma GrantStartsLease(d: Db, t: nat, worker: WorkerId, leaseMs: nat)
    requires FencesBehind(d) && t < |d.tasks|
    ensures LeaseOwn(Grant(d, t, worker, leaseMs), Holding(Lease(t, d.nextFence + 1, worker)))
  {
  }

  lemma GrantKeepsAttempts(d: Db, t: nat, worker: WorkerId, leaseMs: nat)
    requires AttemptsOwn(d) && t < |d.tasks|
    ensures AttemptsOwn(Grant(d, t, worker, leaseMs))
  {
    var e := Grant(d, t, worker, leaseMs);
    forall i | 0 <= i < |e.attempts|
      ensures AttemptOwn(e, i)
    {
      assert AttemptOwn(d, i);
    }
  }

  /** The task a claim leases, after its recoveries. */
  lemma ClaimIsRecoveryAndGrant(d: Db, worker: WorkerId, kinds: set<Kind>, leaseMs: nat, concurrency: nat)
    ensures var (e, lease) := Claim(d, worker, kinds, leaseMs, concurrency);
            if lease.None? then e == d || e == Recovered(d)
            else
              && lease.value.task < |Recovered(d).tasks| && e == Grant(Recovered(d), lease.value.task, worker, leaseMs)
              && lease.value == Lease(lease.value.task, Recovered(d).nextFence + 1, worker) && leaseMs >= 1000
              && CanClaim(Recovered(d), Allowed(Recovered(d), kinds), lease.value.task)
  {
    hide RecoverExpired, CanClaim;
  }

  lemma ClaimStepIs(w: World, e: Event)
    requires e.Claims?
    ensures var v := Step(w, e);
            if e.worker in w.workers then v == w
            else
              var (d, lease) := Claim(w.db, e.worker, e.kinds, e.leaseMs, e.concurrency);
              v == if lease.Some? then Put(w, e.worker, d, Holding(lease.value)) else w.(db := d)
  {
    hide Claim;
  }

  lemma RecoveredKeepsFences(w: World)
    requires FenceInv(w) && QueueInv(w.db) && DbInv(w.db)
    ensures FenceInv(w.(db := Recovered(w.db))) && FencesBehind(Recovered(w.db))
  {
    var h := Recovered(w.db);
    RecoveriesAreQuiet(w.db, |w.db.tasks|);
    RecoverExpiredKeeps(w.db, |w.db.tasks|);
    hide Recovered, RecoverExpired, DbInv, Extends, LeaseOwn;
    QuietKeepsQueue(w.db, h);
    QuietKeepsAttempts(w.db, h);
    hide Quiet;
    forall id | id in w.workers
      ensures LeaseOwn(h, w.workers[id])
    {
      QuietKeepsLease(w.db, h, w.workers[id], w.workers[id]);
    }
  }

  lemma ClaimStepKeepsFences(w: World, e: Event)
    requires FenceInv(w) && QueueInv(w.db) && DbInv(w.db) && e.Claims?
    ensures FenceInv(Step(w, e))
  {
    var h, v := Recovered(w.db), Step(w, e);
    RecoveredKeepsFences(w);
    ClaimIsRecoveryAndGrant(w.db, e.worker, e.kinds, e.leaseMs, e.concurrency);
    ClaimStepIs(w, e);
    hide Step, Claim, Recovered, QueueInv, DbInv, Grant, CanClaim, AttemptsOwn, FencesBehind;
    var lease := Claim(w.db, e.worker, e.kinds, e.leaseMs, e.concurrency).1;
    if e.worker !in w.workers && lease.Some? {
      var t := lease.value.task;
      GrantKeepsAttempts(h, t, e.worker, e.leaseMs);
      GrantStartsLease(h, t, e.worker, e.leaseMs);
      forall id | id in w.workers
        ensures LeaseOwn(v.db, w.workers[id])
      {
        GrantKeepsLease(h, t, e.worker, e.leaseMs, w.workers[id]);
      }
      hide LeaseOwn;
    }
  }

  lemma StepKeepsFences(w: World, e: Event)
    requires WorldInv(w) && FenceInv(w) && QueueInv(w.db)
    ensures FenceInv(Step(w, e))
  {
    assert DbInv(w.db);
    StepProgresses(w, e);
    hide Step, WorldInv, FenceInv, QueueInv, DbInv, Extends;
    if e.Claims? {
      ClaimStepKeepsFences(w, e);
    } else if e.Begins? {
      BeginStepKeepsFences(w, e);
    } else {
      QuietStepKeepsFences(w, e);
    }
  }

  /** In every run a fence names one lease: at most one intent is recorded under it, for the task leased at it. */
  lemma {:induction false} FencesNameLeases(run: seq<World>, events: seq<Event>, n: nat)
    requires IsRun(run, events) && QueueInv(run[0].db) && n < |run|
    ensures FenceInv(run[n])
  {
    hide Step, QueueInv, WorldInv, FenceInv;
    if n == 0 {
      NoFencesYet(run[0]);
    } else {
      FencesNameLeases(run, events, n - 1);
      RunKeepsInv(run, events, n - 1);
      LeasesExclude(run, events, n - 1);
      StepKeepsFences(run[n - 1], events[n - 1]);
    }
  }

  lemma NoFencesYet(w: World)
    requires Initial(w)
    ensures FenceInv(w)
  {
  }
}
