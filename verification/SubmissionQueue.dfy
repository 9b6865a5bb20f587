/**
 What every run keeps of the task queue (packages/persistence/src/repository.ts): leases exclude each other,
 fences only grow, and a reconciliation key stands for a submit that was taken out of the queue.
 */
module SubmissionQueue {
  import opened Outcome
  import opened SubmissionDb
  import opened SubmissionProtocol

  /** No two leased tasks share a domain or an application. */
  ghost predicate Exclusive(d: Db) {
    forall u, v :: 0 <= u < v < |d.tasks| && d.tasks[u].state == Leased && d.tasks[v].state == Leased ==>
      d.tasks[u].domain != d.tasks[v].domain && (d.tasks[u].app.None? || d.tasks[u].app != d.tasks[v].app)
  }

  /** No fence is ahead of the counter. */
  ghost predicate FencesBehind(d: Db) {
    && (forall u :: 0 <= u < |d.tasks| ==> d.tasks[u].fence <= d.nextFence)
    && (forall i :: 0 <= i < |d.attempts| ==> d.attempts[i].fence <= d.nextFence)
  }

  /** A task under a reconciliation key reconciles the application of a submit that was cancelled. */
  ghost predicate KeyOk(d: Db, u: nat)
    requires u < |d.tasks|
  {
    var key := d.tasks[u].key;
    key.ForReconcile? ==>
      && key.task < |d.tasks| && d.tasks[key.task].state == Cancelled
      && d.tasks[u].kind == Reconcile && d.tasks[u].app == Option.Some(key.app)
  }

  ghost predicate QueueInv(d: Db) {
    Exclusive(d) && FencesBehind(d) && forall u :: 0 <= u < |d.tasks| ==> KeyOk(d, u)
  }

  /** `e` leases nothing that `d` did not, keeps what identifies a task, and brings no attempt. */
  ghost predicate Quiet(d: Db, e: Db) {
    && e.nextFence == d.nextFence && |d.tasks| <= |e.tasks|
    && (forall u :: 0 <= u < |d.tasks| ==> Kept(d.tasks[u], e.tasks[u]))
    && (forall u :: |d.tasks| <= u < |e.tasks| ==> e.tasks[u].state != Leased && e.tasks[u].fence == 0 && KeyOk(e, u))
    && |e.attempts| == |d.attempts|
    && (forall i :: 0 <= i < |d.attempts| ==> e.attempts[i].fence == d.attempts[i].fence)
  }

  ghost predicate Kept(x: Task, y: Task) {
    && y.fence == x.fence && y.domain == x.domain && y.app == x.app && y.kind == x.kind && y.key == x.key
    && y.attempts == x.attempts && y.maxAttempts == x.maxAttempts
    && (y.state == Leased ==> x.state == Leased) && (x.state == Cancelled ==> y.state == Cancelled)
  }

  lemma QuietTrans(d: Db, e: Db, f: Db)
    requires Quiet(d, e) && Quiet(e, f)
    ensures Quiet(d, f)
  {
    forall u | 0 <= u < |d.tasks|
      ensures Kept(d.tasks[u], f.tasks[u])
    {
      assert Kept(d.tasks[u], e.tasks[u]) && Kept(e.tasks[u], f.tasks[u]);
    }
    forall u | |d.tasks| <= u < |f.tasks|
      ensures f.tasks[u].state != Leased && f.tasks[u].fence == 0 && KeyOk(f, u)
    {
      if u < |e.tasks| {
        KeyStaysOk(e, f, u);
      }
    }
  }

  lemma KeyStaysOk(d: Db, e: Db, u: nat)
    requires Quiet(d, e) && u < |d.tasks| && KeyOk(d, u)
    ensures KeyOk(e, u) && Kept(d.tasks[u], e.tasks[u])
  {
    assert Kept(d.tasks[u], e.tasks[u]);
    if d.tasks[u].key.ForReconcile? {
      assert Kept(d.tasks[d.tasks[u].key.task], e.tasks[d.tasks[u].key.task]);
    }
  }

  lemma QuietKeepsQueue(d: Db, e: Db)
    requires QueueInv(d) && Quiet(d, e)
    ensures QueueInv(e)
  {
    forall u | 0 <= u < |e.tasks|
      ensures e.tasks[u].fence <= e.nextFence && KeyOk(e, u)
    {
      if u < |d.tasks| {
        KeyStaysOk(d, e, u);
      }
    }
    forall u, v | 0 <= u < v < |e.tasks| && e.tasks[u].state == Leased && e.tasks[v].state == Leased
      ensures e.tasks[u].domain != e.tasks[v].domain && (e.tasks[u].app.None? || e.tasks[u].app != e.tasks[v].app)
    {
      assert v < |d.tasks|;
      assert Kept(d.tasks[u], e.tasks[u]) && Kept(d.tasks[v], e.tasks[v]);
    }
  }

  lemma SetTaskIsQuiet(d: Db, t: nat, state: TaskState, runAfter: int)
    requires t < |d.tasks| && state != Leased && (d.tasks[t].state == Cancelled ==> state == Cancelled)
    ensures Quiet(d, SetTask(d, t, state, runAfter))
  {
  }

  lemma SameQueueIsQuiet(d: Db, e: Db)
    requires e.tasks == d.tasks && e.nextFence == d.nextFence && |e.attempts| == |d.attempts|
    requires forall i :: 0 <= i < |d.attempts| ==> e.attempts[i].fence == d.attempts[i].fence
    ensures Quiet(d, e)
  {
  }

  lemma EnqueueIsQuiet(d: Db, task: Task)
    requires task.key.Chosen?
    ensures Quiet(d, Enqueue(d, task))
  {
  }

  /** Queueing the reconciliation of task `t` and cancelling `t` go together. */
  lemma ReplaceIsQuiet(d: Db, t: nat, a: AppId)
    requires t < |d.tasks|
    ensures Quiet(d, SetTask(Enqueue(d, ReconcileTask(t, d.tasks[t], a, d.now)), t, Cancelled, d.tasks[t].runAfter))
  {
  }

  lemma RecoverIsQuiet(d: Db, t: nat, cancelled: bool)
    requires t < |d.tasks| && d.tasks[t].state != Cancelled
    ensures Quiet(d, Recover(d, t, cancelled)) && Recover(d, t, cancelled).tasks[t].state != Leased
  {
    var task := d.tasks[t];
    hide Quiet;
    if task.kind == Submit && HasApp(d, t) && Uncertainty(d.apps[task.app.value].state) {
      var a := task.app.value;
      var marked := if d.apps[a].state == InFlight then SetApp(d, a, Unknown, 1).(attempts := Grounded(d.attempts, a))
        else d;
      GroundedKeepsFences(d.attempts, a);
      SameQueueIsQuiet(d, marked);
      ReplaceIsQuiet(marked, t, a);
      QuietTrans(d, marked, Recover(d, t, cancelled));
    } else {
      SetTaskIsQuiet(d, t, Completed, task.runAfter);
      SetTaskIsQuiet(d, t, if cancelled then Cancelled else Again(task), d.now);
    }
  }

  lemma GroundedKeepsFences(attempts: seq<Attempt>, a: AppId)
    ensures forall i :: 0 <= i < |attempts| ==> Grounded(attempts, a)[i].fence == attempts[i].fence
  {
  }

  lemma {:induction false} RecoveriesAreQuiet(d: Db, n: nat)
    requires n <= |d.tasks|
    ensures Quiet(d, RecoverExpired(d, n)) && Quiet(d, RecoverSubmits(d, n))
  {
    hide Recover, Quiet;
    if n == 0 {
      SameQueueIsQuiet(d, d);
    } else {
      RecoveriesAreQuiet(d, n - 1);
      var e, f := RecoverExpired(d, n - 1), RecoverSubmits(d, n - 1);
      if e.tasks[n - 1].state == Leased {
        RecoverIsQuiet(e, n - 1, false);
        QuietTrans(d, e, Recover(e, n - 1, false));
      }
      if f.tasks[n - 1].state == Leased {
        RecoverIsQuiet(f, n - 1, true);
        QuietTrans(d, f, Recover(f, n - 1, true));
      }
    }
  }

  lemma GrantKeepsQueue(d: Db, kinds: set<Kind>, t: nat, worker: WorkerId, leaseMs: nat)
    requires QueueInv(d) && t < |d.tasks| && CanClaim(d, kinds, t)
    ensures QueueInv(Grant(d, t, worker, leaseMs))
  {
    var e := Grant(d, t, worker, leaseMs);
    forall u | 0 <= u < |e.tasks|
      ensures KeyOk(e, u)
    {
      assert KeyOk(d, u);
    }
  }

  lemma ClaimKeepsQueue(d: Db, worker: WorkerId, kinds: set<Kind>, leaseMs: nat, concurrency: nat)
    requires QueueInv(d)
    ensures QueueInv(Claim(d, worker, kinds, leaseMs, concurrency).0)
  {
    hide RecoverExpired, Grant, QueueInv, Quiet;
    RecoveriesAreQuiet(d, |d.tasks|);
    var e := RecoverExpired(d, |d.tasks|);
    QuietKeepsQueue(d, e);
    var best := Best(e, Allowed(e, kinds), |e.tasks|);
    if best.Some? {
      GrantKeepsQueue(e, Allowed(e, kinds), best.value, worker, leaseMs);
    }
  }

  lemma BeginKeepsQueue(d: Db, l: Lease, revision: nat, permitted: bool)
    requires QueueInv(d) && Begin(d, l, revision, permitted).Some?
    ensures QueueInv(Begin(d, l, revision, permitted).value.0)
  {
    var e := Begin(d, l, revision, permitted).value.0;
    forall u | 0 <= u < |e.tasks|
      ensures KeyOk(e, u)
    {
      assert KeyOk(d, u);
    }
  }

  lemma StepIsQuiet(w: World, e: Event)
    requires !e.Claims? && !e.Begins?
    ensures Quiet(w.db, Step(w, e).db)
  {
    hide Quiet;
    SameQueueIsQuiet(w.db, w.db);
    if !OfWorker(e) {
      QueueStepIsQuiet(w, e);
    } else if e.worker in w.workers {
      WorkerStepIsQuiet(w, e.worker, w.workers[e.worker], e);
    }
  }

  lemma QueueStepIsQuiet(w: World, e: Event)
    requires !OfWorker(e) && !e.Claims?
    ensures Quiet(w.db, Step(w, e).db)
  {
    hide Recover, RecoverSubmits, Quiet;
    var d := Step(w, e).db;
    match e
    case Enqueues(task) =>
      SameQueueIsQuiet(w.db, w.db);
      if task.key.Chosen? {
        EnqueueIsQuiet(w.db, task);
      }
    case Controls(paused, stopped) =>
      var c := w.db.(paused := paused, stopped := stopped);
      SameQueueIsQuiet(w.db, c);
      RecoveriesAreQuiet(c, |c.tasks|);
      QuietTrans(w.db, c, RecoverSubmits(c, |c.tasks|));
    case Cancels(t) =>
      SameQueueIsQuiet(w.db, w.db);
      if t < |w.db.tasks| && w.db.tasks[t].state != Cancelled {
        RecoverIsQuiet(w.db, t, true);
      }
    case _ => SameQueueIsQuiet(w.db, d);
  }

  lemma WorkerStepIsQuiet(w: World, id: WorkerId, p: Phase, e: Event)
    requires !e.Begins?
    ensures Quiet(w.db, WorkerStep(w, id, p, e).db)
  {
    hide Recover, Quiet, Fail, Complete, Renew;
    hide AuthorizeDispatch, AbortBeforeDispatch, ConfirmReceipt, RecordRejection, ReconcileReceipt;
    SameQueueIsQuiet(w.db, w.db);
    match e
    case Renews(_, leaseMs) => RenewIsQuiet(w.db, p.lease, leaseMs);
    case Authorizes(_, permitted) =>
      if p.Begun? {
        AuthorizeIsQuiet(w.db, p.lease, p.handle, permitted);
      }
    case Aborts(_) =>
      if p.Begun? {
        AbortIsQuiet(w.db, p.lease, p.handle);
      }
    case Confirms(_) =>
      if p.Answered? {
        ConfirmIsQuiet(w.db, p.lease, p.handle, p.record);
      }
    case RecordsRejection(_) =>
      if p.Refused? {
        RejectIsQuiet(w.db, p.lease, p.handle);
      }
    case Reconciles(_) =>
      if p.Observed? {
        ReconcileIsQuiet(w.db, p.lease, p.evidence);
      }
    case Completes(_) => CompleteIsQuiet(w.db, p.lease);
    case Fails(_, retryable, delay) => FailIsQuiet(w.db, p.lease, retryable, delay);
    case _ =>
  }

  lemma AuthorizeIsQuiet(d: Db, l: Lease, h: Handle, permitted: bool)
    ensures AuthorizeDispatch(d, l, h, permitted).Some? ==> Quiet(d, AuthorizeDispatch(d, l, h, permitted).value)
  {
  }

  lemma AbortIsQuiet(d: Db, l: Lease, h: Handle)
    ensures AbortBeforeDispatch(d, l, h).Some? ==> Quiet(d, AbortBeforeDispatch(d, l, h).value)
  {
  }

  lemma ConfirmIsQuiet(d: Db, l: Lease, h: Handle, record: nat)
    ensures ConfirmReceipt(d, l, h, record).Some? ==> Quiet(d, ConfirmReceipt(d, l, h, record).value)
  {
  }

  lemma RejectIsQuiet(d: Db, l: Lease, h: Handle)
    ensures RecordRejection(d, l, h).Some? ==> Quiet(d, RecordRejection(d, l, h).value)
  {
  }

  lemma ReconcileIsQuiet(d: Db, l: Lease, evidence: Option<nat>)
    ensures ReconcileReceipt(d, l, evidence).Some? ==> Quiet(d, ReconcileReceipt(d, l, evidence).value)
  {
  }

  lemma CompleteIsQuiet(d: Db, l: Lease)
    ensures Complete(d, l).Some? ==> Quiet(d, Complete(d, l).value)
  {
    if Complete(d, l).Some? {
      SetTaskIsQuiet(d, l.task, Completed, d.tasks[l.task].runAfter);
    }
  }

  lemma FailIsQuiet(d: Db, l: Lease, retryable: bool, delay: nat)
    ensures Fail(d, l, retryable, delay).Some? ==> Quiet(d, Fail(d, l, retryable, delay).value)
  {
    hide Recover, Quiet;
    if Fail(d, l, retryable, delay).Some? {
      var task := d.tasks[l.task];
      RecoverIsQuiet(d, l.task, false);
      SetTaskIsQuiet(d, l.task, if retryable
                     && task.attempts < task.maxAttempts then RetryWait else Dead, d.now + delay);
    }
  }

  lemma RenewIsQuiet(d: Db, l: Lease, leaseMs: nat)
    ensures Renew(d, l, leaseMs).Some? ==> Quiet(d, Renew(d, l, leaseMs).value)
  {
  }

  lemma StepKeepsQueue(w: World, e: Event)
    requires QueueInv(w.db)
    ensures QueueInv(Step(w, e).db) && w.db.nextFence <= Step(w, e).db.nextFence
  {
    if e.Claims? {
      ClaimStepKeepsQueue(w, e);
    } else if e.Begins? {
      BeginStepKeepsQueue(w, e);
    } else {
      hide Step, QueueInv;
      StepIsQuiet(w, e);
      QuietKeepsQueue(w.db, Step(w, e).db);
    }
  }

  lemma ClaimStepKeepsQueue(w: World, e: Event)
    requires QueueInv(w.db) && e.Claims?
    ensures QueueInv(Step(w, e).db) && w.db.nextFence <= Step(w, e).db.nextFence
  {
    hide QueueInv, RecoverExpired, Quiet;
    ClaimKeepsQueue(w.db, e.worker, e.kinds, e.leaseMs, e.concurrency);
    RecoveriesAreQuiet(w.db, |w.db.tasks|);
    QuietFence(w.db, RecoverExpired(w.db, |w.db.tasks|));
  }

  lemma QuietFence(d: Db, e: Db)
    requires Quiet(d, e)
    ensures e.nextFence == d.nextFence
  {
  }

  lemma BeginStepKeepsQueue(w: World, e: Event)
    requires QueueInv(w.db) && e.Begins?
    ensures QueueInv(Step(w, e).db) && w.db.nextFence <= Step(w, e).db.nextFence
  {
    hide QueueInv;
    if e.worker in w.workers && w.workers[e.worker].Holding? {
      var l := w.workers[e.worker].lease;
      if Begin(w.db, l, e.revision, e.permitted).Some? {
        BeginKeepsQueue(w.db, l, e.revision, e.permitted);
      }
    }
  }

  /**
   In every run leases exclude each other, fences stay behind the
   counter and reconciliation keys keep their meaning.
   */
  lemma {:induction false} LeasesExclude(run: seq<World>, events: seq<Event>, n: nat)
    requires IsRun(run, events) && n < |run| && QueueInv(run[0].db)
    ensures QueueInv(run[n].db)
  {
    hide Step, QueueInv;
    if n > 0 {
      LeasesExclude(run, events, n - 1);
      StepKeepsQueue(run[n - 1], events[n - 1]);
    }
  }
}
