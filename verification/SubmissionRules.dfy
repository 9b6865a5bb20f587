/**
 What a transaction needs and what it does to the queue, spelled out: fencing of leases, pauses, acknowledgement,
 failure, cancellation and renewal (packages/persistence/src/repository.ts and submission-repository.ts).
 */
module SubmissionRules {
  import opened Outcome
  import opened SubmissionDb
  import opened SubmissionProtocol
  import opened SubmissionRecovery
  import opened SubmissionQueue

  // ---- Fencing ----

  /** The lease is the task's latest one, of this worker, and has time left. */
  ghost predicate InForce(d: Db, l: Lease) {
    && l.task < |d.tasks|
    && d.tasks[l.task].state == Leased && d.tasks[l.task].fence == l.fence && d.tasks[l.task].owner == l.owner
    && d.now < d.tasks[l.task].until
  }

  lemma ValidIsInForce(d: Db, l: Lease, kind: Kind)
    ensures ValidLease(d, l, kind) <==> InForce(d, l) && d.tasks[l.task].kind == kind
  {
  }

  /** A worker whose lease ran out, or was taken over, can change nothing in the database any more. */
  lemma StaleWorkerChangesNothing(w: World, e: Event)
    requires OfWorker(e) && (e.worker in w.workers ==> !InForce(w.db, w.workers[e.worker].lease))
    ensures Step(w, e).db == w.db
  {
    if e.worker in w.workers {
      var l := w.workers[e.worker].lease;
      forall kind
        ensures !ValidLease(w.db, l, kind)
      {
        ValidIsInForce(w.db, l, kind);
      }
      hide InForce, ValidLease;
      assert Step(w, e).db == w.db;
    }
  }

  // ---- Pauses ----

  lemma RecoverUnleases(d: Db, t: nat, cancelled: bool)
    requires t < |d.tasks|
    ensures Recover(d, t, cancelled).tasks[t].state != Leased
  {
  }

  /** No submit among the first `n` tasks is leased. */
  ghost predicate NoSubmitLeased(d: Db, n: nat) {
    forall t :: 0 <= t < n && t < |d.tasks| && d.tasks[t].kind == Submit ==> d.tasks[t].state != Leased
  }

  lemma QuietLeasesNoSubmit(d: Db, e: Db, n: nat)
    requires Quiet(d, e) && NoSubmitLeased(d, n) && n <= |d.tasks|
    ensures NoSubmitLeased(e, n)
  {
    forall t | 0 <= t < n && e.tasks[t].kind == Submit
      ensures e.tasks[t].state != Leased
    {
      assert Kept(d.tasks[t], e.tasks[t]);
    }
  }

  lemma {:induction false} SubmitsRecovered(d: Db, n: nat)
    requires n <= |d.tasks|
    ensures NoSubmitLeased(RecoverSubmits(d, n), n)
  {
    hide Recover, Quiet;
    if n > 0 {
      var m: nat := n - 1;
      SubmitsRecovered(d, m);
      var x := RecoverSubmits(d, m);
      if x.tasks[m].state == Leased && x.tasks[m].kind == Submit {
        RecoverIsQuiet(x, m, true);
        RecoverUnleases(x, m, true);
        QuietLeasesNoSubmit(x, Recover(x, m, true), m);
      }
    }
  }

  /** Pausing or stopping takes every submit out of its lease, and none begins or is dispatched until it is lifted. */
  lemma PauseStopsSubmissions(d: Db, paused: bool, stopped: bool)
    requires paused || stopped
    ensures var e := SetControl(d, paused, stopped);
            && NoSubmitLeased(e, |e.tasks|) && e.paused == paused && e.stopped == stopped
  {
    var c := d.(paused := paused, stopped := stopped);
    SubmitsRecovered(c, |c.tasks|);
    RecoveriesAreQuiet(c, |c.tasks|);
    RecoveriesKeepControl(c, |c.tasks|);
    hide RecoverSubmits;
  }

  lemma {:induction false} RecoveriesKeepControl(d: Db, n: nat)
    requires n <= |d.tasks|
    ensures RecoverSubmits(d, n).paused == d.paused && RecoverSubmits(d, n).stopped == d.stopped
    ensures RecoverExpired(d, n).paused == d.paused && RecoverExpired(d, n).stopped == d.stopped
  {
    hide Recover;
    if n > 0 {
      RecoveriesKeepControl(d, n - 1);
      RecoverKeepsControl(RecoverSubmits(d, n - 1), n - 1, true);
      RecoverKeepsControl(RecoverExpired(d, n - 1), n - 1, false);
    }
  }

  lemma RecoverKeepsControl(d: Db, t: nat, cancelled: bool)
    requires t < |d.tasks|
    ensures Recover(d, t, cancelled).paused == d.paused && Recover(d, t, cancelled).stopped == d.stopped
  {
  }

  lemma PausedMeansNothingLeaves(d: Db, l: Lease, h: Handle, revision: nat, permitted: bool)
    requires d.paused || d.stopped || !permitted
    ensures Begin(d, l, revision, permitted).None? && AuthorizeDispatch(d, l, h, permitted).None?
  {
  }

  lemma LiftingKeepsTheQueue(d: Db)
    ensures SetControl(d, false, false) == d.(paused := false, stopped := false)
  {
  }

  // ---- When each transaction of a worker goes through, and what it writes ----

  /** `e` is `d` but for task `t`. */
  ghost predicate OnlyTask(d: Db, e: Db, t: nat) {
    && e == d.(tasks := e.tasks) && |e.tasks| == |d.tasks| && t < |d.tasks|
    && forall u :: 0 <= u < |d.tasks| && u != t ==> e.tasks[u] == d.tasks[u]
  }

  /** `e` is `d` but for application `a` and attempt `i`, with `receipts` added. */
  ghost predicate OnlyAction(d: Db, e: Db, a: AppId, i: nat, receipts: seq<Receipt>) {
    && e == d.(apps := e.apps, attempts := e.attempts, receipts := d.receipts + receipts)
    && e.apps.Keys == d.apps.Keys && (forall b :: b in d.apps && b != a ==> e.apps[b] == d.apps[b])
    && |e.attempts| == |d.attempts| && i < |d.attempts| && a in d.apps
    && forall j :: 0 <= j < |d.attempts| && j != i ==> e.attempts[j] == d.attempts[j]
  }

  /** An earlier attempt of the application that was not stopped before its dispatch. */
  ghost predicate ActedBefore(d: Db, a: AppId) {
    exists i :: 0 <= i < |d.attempts| && d.attempts[i].app == a
          && !(d.attempts[i].state == Blocked && !d.attempts[i].dispatched)
  }

  lemma ActedBeforeIsPrior(d: Db, a: AppId)
    ensures PriorFinalAction(d, a) <==> ActedBefore(d, a)
  {
    if i :| 0 <= i < |d.attempts| && d.attempts[i].app == a && Counts(d.attempts[i]) {
      assert !(d.attempts[i].state == Blocked && !d.attempts[i].dispatched);
    }
    if ActedBefore(d, a) {
      var i :| 0 <= i < |d.attempts| && d.attempts[i].app == a
               && !(d.attempts[i].state == Blocked && !d.attempts[i].dispatched);
      assert Counts(d.attempts[i]);
    }
  }

  /** The submit lease of `a` is in force. */
  ghost predicate Submits(d: Db, l: Lease, a: AppId) {
    InForce(d, l) && d.tasks[l.task].kind == Submit && d.tasks[l.task].app == Option.Some(a) && a in d.apps
  }

  /**
   An intent is recorded exactly under a submit lease in force, for an application that is ready, as expected, last
   leased to this worker and never acted on before, while nothing is paused and all checks pass.
   */
  lemma BeginExactly(d: Db, l: Lease, revision: nat, permitted: bool, a: AppId)
    requires l.task < |d.tasks| && d.tasks[l.task].app == Option.Some(a)
    ensures Begin(d, l, revision, permitted).Some? <==>
              && Submits(d, l, a) && !d.paused && !d.stopped && permitted
              && d.apps[a].state == Ready && d.apps[a].revision == revision && d.apps[a].commitFence == l.fence
              && !ActedBefore(d, a)
    ensures Begin(d, l, revision, permitted).Some? ==>
              Begin(d, l, revision, permitted).value ==
              (d.(apps := d.apps[a := App(InFlight, revision + 2, l.fence)],
                  intents := d.intents + [Intent(a, l.task, l.fence)],
                  attempts := d.attempts + [Attempt(a, |d.intents|, l.fence, Flying, false)]),
               Handle(a, |d.attempts|, l.fence))
  {
    ActedBeforeIsPrior(d, a);
    hide PriorFinalAction, ActedBefore;
  }

  /** The attempt of handle `h` is in flight under the lease. */
  ghost predicate Flies(d: Db, l: Lease, h: Handle) {
    && Submits(d, l, h.app) && h.fence == l.fence == d.apps[h.app].commitFence && d.apps[h.app].state == InFlight
    && h.attempt < |d.attempts| && d.attempts[h.attempt].app == h.app && d.attempts[h.attempt].state == Flying
  }

  /** Its intent names the task and the fence. */
  ghost predicate Bound(d: Db, l: Lease, h: Handle) {
    && h.attempt < |d.attempts| && d.attempts[h.attempt].intent < |d.intents|
    && d.intents[d.attempts[h.attempt].intent].task == l.task
       && d.intents[d.attempts[h.attempt].intent].fence == h.fence
  }

  lemma AuthorizeExactly(d: Db, l: Lease, h: Handle, permitted: bool)
    ensures var r := AuthorizeDispatch(d, l, h, permitted);
            && (r.Some? <==> Flies(d, l, h) && Bound(d, l, h) && !d.attempts[h.attempt].dispatched
                             && !d.paused && !d.stopped && permitted)
            && (r.Some? ==> OnlyAction(d, r.value, h.app, h.attempt, []) && r.value.apps == d.apps
                            && r.value.attempts[h.attempt] == d.attempts[h.attempt].(dispatched := true))
  {
    assert d.receipts + [] == d.receipts;
  }

  lemma AbortExactly(d: Db, l: Lease, h: Handle)
    ensures var r := AbortBeforeDispatch(d, l, h);
            && (r.Some? <==> Flies(d, l, h) && Bound(d, l, h) && !d.attempts[h.attempt].dispatched)
            && (r.Some? ==> OnlyAction(d, r.value, h.app, h.attempt, [])
                            && r.value.apps[h.app] == App(Unsupported, d.apps[h.app].revision + 1, h.fence)
                            && r.value.attempts[h.attempt] == d.attempts[h.attempt].(state := Blocked))
  {
    assert d.receipts + [] == d.receipts;
  }

  lemma ConfirmExactly(d: Db, l: Lease, h: Handle, record: nat)
    ensures var r := ConfirmReceipt(d, l, h, record);
            && (r.Some? <==> Flies(d, l, h) && d.attempts[h.attempt].dispatched
                             && forall i :: 0 <= i < |d.receipts| ==> d.receipts[i].record != record)
            && (r.Some? ==> OnlyAction(d, r.value, h.app, h.attempt, [Receipt(h.app, h.attempt, record)])
                            && r.value.apps[h.app] == App(Confirmed, d.apps[h.app].revision + 1, h.fence)
                            && r.value.attempts[h.attempt] == d.attempts[h.attempt].(state := Accepted))
  {
  }

  lemma RejectExactly(d: Db, l: Lease, h: Handle)
    ensures var r := RecordRejection(d, l, h);
            && (r.Some? <==> Flies(d, l, h) && d.attempts[h.attempt].dispatched)
            && (r.Some? ==> OnlyAction(d, r.value, h.app, h.attempt, [])
                            && r.value.apps[h.app] == App(DefinitiveFailure, d.apps[h.app].revision + 1, h.fence)
                            && r.value.attempts[h.attempt] == d.attempts[h.attempt].(state := Rejected))
  {
    assert d.receipts + [] == d.receipts;
  }

  /** Attempt `i` is the application's last. */
  ghost predicate Last(d: Db, a: AppId, i: nat) {
    i < |d.attempts| && d.attempts[i].app == a && forall j :: i < j < |d.attempts| ==> d.attempts[j].app != a
  }

  /**
   Reconciling decides the application's last attempt, in doubt, by
   a record no receipt names yet, or asks for review.
   */
  lemma ReconcileExactly(d: Db, l: Lease, evidence: Option<nat>, a: AppId, i: nat)
    requires l.task < |d.tasks| && d.tasks[l.task].app == Option.Some(a) && Last(d, a, i)
    ensures var r := ReconcileReceipt(d, l, evidence);
            && (r.Some? <==>
                  && InForce(d, l) && d.tasks[l.task].kind == Reconcile && a in d.apps
                  && (d.apps[a].state == Unknown || d.apps[a].state == NeedsReview) && d.attempts[i].state == Uncertain
                  && (evidence.Some? ==> forall k :: 0 <= k < |d.receipts| ==> d.receipts[k].record != evidence.value))
            && (r.Some? && evidence.None? ==>
                  && OnlyAction(d, r.value, a, i, []) && r.value.attempts == d.attempts
                  && r.value.apps[a] == d.apps[a].(state := NeedsReview, revision := d.apps[a].revision + 2))
            && (r.Some? && evidence.Some? ==>
                  && OnlyAction(d, r.value, a, i, [Receipt(a, i, evidence.value)])
                  && r.value.apps[a] == d.apps[a].(state := Confirmed, revision := d.apps[a].revision + 2)
                  && r.value.attempts[i] == d.attempts[i].(state := Accepted))
  {
    assert d.receipts + [] == d.receipts;
    var latest := Latest(d, a, |d.attempts|);
    assert latest.Some? && i <= latest.value;
    assert latest.value == i;
    hide Latest;
  }

  // ---- The queue's own transactions ----

  /** A task is acknowledged exactly under a lease in force and, for a submit, once its outcome is settled. */
  lemma CompleteExactly(d: Db, l: Lease)
    ensures var r := Complete(d, l);
            && (r.Some? <==>
                  && InForce(d, l)
                  && (d.tasks[l.task].kind == Submit ==>
                        && d.tasks[l.task].app.Some? && d.tasks[l.task].app.value in d.apps
                        && var s := d.apps[d.tasks[l.task].app.value].state;
                           s == Confirmed || s == DefinitiveFailure
                           || (s == Unsupported && StoppedBeforeDispatch(d, l.task))))
            && (r.Some? ==> OnlyTask(d, r.value, l.task))
            && (r.Some? ==> r.value.tasks[l.task] == d.tasks[l.task].(state := Completed))
  {
    hide StoppedBeforeDispatch;
  }

  /**
   A failed task is tried again after the delay while it may and
   has attempts left; a submit in doubt is recovered.
   */
  lemma FailExactly(d: Db, l: Lease, retryable: bool, delay: nat)
    ensures var r := Fail(d, l, retryable, delay);
            && (r.Some? <==> InForce(d, l))
            && (r.Some? ==>
                  var task := d.tasks[l.task];
                  if task.kind == Submit && task.app.Some? && task.app.value in d.apps
                     && d.apps[task.app.value].state in {InFlight, Unknown, Reconciling, NeedsReview, Confirmed}
                  then r.value == Recover(d, l.task, false)
                  else
                    && OnlyTask(d, r.value, l.task)
                    && r.value.tasks[l.task] == task.(runAfter := d.now + delay,
                         state := if retryable && task.attempts < task.maxAttempts then RetryWait else Dead))
  {
    hide Recover;
  }

  /** An attempt under this very lease of the task was stopped before its dispatch. */
  ghost predicate StoppedInTime(d: Db, t: nat, a: AppId)
    requires t < |d.tasks|
  {
    exists i :: && 0 <= i < |d.attempts| && d.attempts[i].app == a && d.attempts[i].fence == d.tasks[t].fence
                && d.attempts[i].state == Blocked && !d.attempts[i].dispatched
                && d.attempts[i].intent < |d.intents| && d.intents[d.attempts[i].intent].task == t
  }

  /** A submit of the application, which is in one of the given states. */
  ghost predicate SubmitIn(d: Db, t: nat, a: AppId, states: set<AppState>) {
    && t < |d.tasks| && d.tasks[t].kind == Submit && d.tasks[t].app == Option.Some(a) && a in d.apps
    && d.apps[a].state in states
  }

  lemma StoppedInTimeIs(d: Db, t: nat, a: AppId)
    requires t < |d.tasks| && d.tasks[t].app == Option.Some(a)
    ensures StoppedBeforeDispatch(d, t) <==> StoppedInTime(d, t, a)
  {
    if StoppedBeforeDispatch(d, t) {
      var i :| 0 <= i < |d.attempts| && StoppedAt(d, t, i);
      assert d.attempts[i].app == a;
    }
    if StoppedInTime(d, t, a) {
      var i :| && 0 <= i < |d.attempts| && d.attempts[i].app == a && d.attempts[i].fence == d.tasks[t].fence
               && d.attempts[i].state == Blocked && !d.attempts[i].dispatched
               && d.attempts[i].intent < |d.intents| && d.intents[d.attempts[i].intent].task == t;
      assert StoppedAt(d, t, i);
    }
  }

  /** A submit that is settled is completed by its recovery, and nothing else changes. */
  lemma SettledIsCompleted(d: Db, t: nat, cancelled: bool, a: AppId)
    requires SubmitIn(d, t, a, {Confirmed}) || (SubmitIn(d, t, a, {Unsupported}) && StoppedInTime(d, t, a))
    ensures OnlyTask(d, Recover(d, t, cancelled), t)
    ensures Recover(d, t, cancelled).tasks[t] == d.tasks[t].(state := Completed)
  {
    StoppedInTimeIs(d, t, a);
    hide StoppedBeforeDispatch, StoppedInTime;
  }

  /** Any other task without doubt is cancelled, or tried again at once while it has attempts left, or dead. */
  lemma OtherwiseTriedAgain(d: Db, t: nat, cancelled: bool)
    requires t < |d.tasks|
    requires forall a :: !SubmitIn(d, t, a, {InFlight, Unknown, Reconciling, NeedsReview, Confirmed})
    requires forall a :: SubmitIn(d, t, a, {Unsupported}) ==> !StoppedInTime(d, t, a)
    ensures OnlyTask(d, Recover(d, t, cancelled), t)
    ensures Recover(d, t, cancelled).tasks[t] == d.tasks[t].(runAfter := d.now,
              state := if cancelled then Cancelled
                       else if d.tasks[t].attempts < d.tasks[t].maxAttempts then RetryWait else Dead)
  {
    if d.tasks[t].app.Some? {
      var a := d.tasks[t].app.value;
      StoppedInTimeIs(d, t, a);
      assert !SubmitIn(d, t, a, {InFlight, Unknown, Reconciling, NeedsReview, Confirmed});
      assert SubmitIn(d, t, a, {Unsupported}) ==> !StoppedInTime(d, t, a);
    }
    hide StoppedBeforeDispatch, StoppedInTime;
  }

  /** A submit in doubt is cancelled for a reconciliation; an application in flight becomes unknown. */
  lemma DoubtIsReconciled(d: Db, t: nat, cancelled: bool, a: AppId)
    requires SubmitIn(d, t, a, {InFlight, Unknown, Reconciling, NeedsReview})
    ensures var e := Recover(d, t, cancelled);
            && t < |d.tasks| <= |e.tasks| && e.tasks[t] == d.tasks[t].(state := Cancelled) && a in e.apps
            && e.apps[a] == (if d.apps[a].state == InFlight
                             then d.apps[a].(state := Unknown, revision := d.apps[a].revision + 1) else d.apps[a])
            && exists r :: 0 <= r < |e.tasks| && e.tasks[r].key == ForReconcile(a, t)
  {
    var e := Recover(d, t, cancelled);
    if u :| 0 <= u < |d.tasks| && d.tasks[u].key == ForReconcile(a, t) {
      assert e.tasks[u].key == ForReconcile(a, t);
    } else {
      assert e.tasks[|d.tasks|].key == ForReconcile(a, t);
    }
  }

  /** Cancelling leaves an ended task alone, refuses a reconciliation, and otherwise takes the task out of the queue. */
  lemma CancelExactly(d: Db, t: nat)
    ensures var r := CancelTask(d, t);
            && (r.Some? <==>
                  t < |d.tasks| && (d.tasks[t].state in {Completed, Cancelled, Dead} || d.tasks[t].kind != Reconcile))
            && (r.Some? && d.tasks[t].state in {Completed, Cancelled, Dead} ==> r.value == d)
            && (r.Some? && d.tasks[t].state !in {Completed, Cancelled, Dead} ==>
                  t < |r.value.tasks| && r.value.tasks[t].state in {Completed, Cancelled})
  {
  }

  /** A lease is extended exactly while it is in force and its kind of work is not paused, by 1 second to 5 minutes. */
  lemma RenewExactly(d: Db, l: Lease, leaseMs: nat)
    ensures var r := Renew(d, l, leaseMs);
            && (r.Some? <==> InForce(d, l) && 1000 <= leaseMs <= 300000 && !d.stopped
                             && (d.paused ==> d.tasks[l.task].kind != Submit))
            && (r.Some? ==> OnlyTask(d, r.value, l.task)
                            && r.value.tasks[l.task] == d.tasks[l.task].(until := d.now + leaseMs))
  {
  }

  /** A task is queued exactly when its key is not, fresh and unleased. */
  lemma EnqueueExactly(d: Db, task: Task)
    ensures var e := Enqueue(d, task);
            if exists u :: 0 <= u < |d.tasks| && d.tasks[u].key == task.key then e == d
            else
              && e == d.(tasks := d.tasks + [e.tasks[|d.tasks|]])
              && e.tasks[|d.tasks|] == Task(task.kind, task.app, task.domain, task.key, task.priority, Queued,
                                            task.runAfter, 0, task.maxAttempts, 0, 0, 0)
  {
  }

  /** A reconciliation goes to the front of the queue, at once, with four attempts. */
  lemma ReconciliationIsUrgent(t: nat, task: Task, a: AppId, now: int)
    ensures var r := ReconcileTask(t, task, a, now);
            && r.kind == Reconcile && r.app == Option.Some(a) && r.domain == task.domain && r.key == ForReconcile(a, t)
            && r.priority == 100 && r.runAfter == now && r.maxAttempts == 4 && r.state == Queued && r.attempts == 0
  {
  }

  /** A grant gives the task a new fence and one more attempt, and a submit's application the same fence. */
  lemma GrantExactly(d: Db, t: nat, worker: WorkerId, leaseMs: nat)
    requires t < |d.tasks|
    ensures var e, fence := Grant(d, t, worker, leaseMs), d.nextFence + 1;
            && e.nextFence == fence && OnlyTask(d.(nextFence := fence, apps := e.apps), e, t)
            && e.tasks[t] == d.tasks[t].(state := Leased, fence := fence, attempts := d.tasks[t].attempts + 1,
                                         owner := worker, until := d.now + leaseMs)
            && e.apps.Keys == d.apps.Keys
            && forall a :: a in d.apps ==>
                 e.apps[a] == if d.tasks[t].kind == Submit && d.tasks[t].app == Option.Some(a)
                              then d.apps[a].(commitFence := fence) else d.apps[a]
  {
  }

  /** Other repositories neither put an application in flight nor confirm it; any other state they may write. */
  lemma MoveExactly(d: Db, a: AppId, state: AppState)
    ensures var e := MoveApplication(d, a, state);
            if state == InFlight || state == Confirmed then e == d
            else
              && e == d.(apps := e.apps) && e.apps.Keys == d.apps.Keys + {a}
              && (forall b :: b in d.apps && b != a ==> e.apps[b] == d.apps[b])
              && e.apps[a] == if a in d.apps then d.apps[a].(state := state, revision := d.apps[a].revision + 1)
                              else App(state, 0, 0)
  {
  }

  // ---- What a worker can touch ----

  /** Nothing differs but task `t`, tasks added, application `a` and the attempts, intents and receipts of `a`. */
  ghost predicate OnlyOwn(d: Db, e: Db, t: nat, a: Option<AppId>) {
    && |d.tasks| <= |e.tasks| && (forall u :: 0 <= u < |d.tasks| && u != t ==> e.tasks[u] == d.tasks[u])
    && (forall b :: b in d.apps && a != Option.Some(b) ==> b in e.apps && e.apps[b] == d.apps[b])
    && |d.attempts| <= |e.attempts|
    && (forall i :: 0 <= i < |d.attempts| && a != Option.Some(d.attempts[i].app) ==> e.attempts[i] == d.attempts[i])
    && (forall i :: |d.attempts| <= i < |e.attempts| ==> a == Option.Some(e.attempts[i].app))
    && d.receipts <= e.receipts && d.intents <= e.intents
    && (forall r :: |d.receipts| <= r < |e.receipts| ==> a == Option.Some(e.receipts[r].app))
    && (forall r :: |d.intents| <= r < |e.intents| ==> a == Option.Some(e.intents[r].app))
    && e.now == d.now && e.paused == d.paused && e.stopped == d.stopped && e.nextFence == d.nextFence
  }

  lemma OwnTaskOnly(d: Db, e: Db, t: nat, a: Option<AppId>)
    requires OnlyTask(d, e, t)
    ensures OnlyOwn(d, e, t, a)
  {
  }

  lemma OwnActionOnly(d: Db, e: Db, t: nat, a: AppId, i: nat, receipts: seq<Receipt>)
    requires OnlyAction(d, e, a, i, receipts) && i < |d.attempts| && d.attempts[i].app == a
    requires forall r :: 0 <= r < |receipts| ==> receipts[r].app == a
    ensures OnlyOwn(d, e, t, Option.Some(a))
  {
  }

  lemma RecoverOwn(d: Db, t: nat, cancelled: bool)
    requires t < |d.tasks|
    ensures OnlyOwn(d, Recover(d, t, cancelled), t, d.tasks[t].app)
  {
    if d.tasks[t].app.Some? {
      var a := d.tasks[t].app.value;
      if SubmitIn(d, t, a, {InFlight, Unknown, Reconciling, NeedsReview}) {
        DoubtTouchesOwn(d, t, cancelled, a);
      } else {
        CertainTouchesOwn(d, t, cancelled);
      }
    } else {
      CertainTouchesOwn(d, t, cancelled);
    }
    hide Recover, OnlyOwn, SubmitIn;
  }

  lemma DoubtTouchesOwn(d: Db, t: nat, cancelled: bool, a: AppId)
    requires SubmitIn(d, t, a, {InFlight, Unknown, Reconciling, NeedsReview})
    ensures OnlyOwn(d, Recover(d, t, cancelled), t, d.tasks[t].app)
  {
    var marked := if d.apps[a].state == InFlight
                  then SetApp(d, a, Unknown, 1).(attempts := Grounded(d.attempts, a)) else d;
    var e := Recover(d, t, cancelled);
    var queued := Enqueue(marked, ReconcileTask(t, d.tasks[t], a, d.now));
    assert e == SetTask(queued, t, Cancelled, d.tasks[t].runAfter);
    GroundTouchesOwn(d, t, a);
    hide Recover, Grounded, ReconcileTask;
    QueueOnly(marked, queued, e, t);
    hide Enqueue;
  }

  lemma GroundTouchesOwn(d: Db, t: nat, a: AppId)
    requires a in d.apps
    ensures OnlyOwn(d, d, t, Option.Some(a))
    ensures OnlyOwn(d, SetApp(d, a, Unknown, 1).(attempts := Grounded(d.attempts, a)), t, Option.Some(a))
  {
  }

  /** Queueing a task and ending another touches tasks only. */
  lemma QueueOnly(d: Db, queued: Db, e: Db, t: nat)
    requires t < |d.tasks| && (exists task :: queued == Enqueue(d, task))
    requires exists state, runAfter :: t < |queued.tasks| && e == SetTask(queued, t, state, runAfter)
    ensures e == d.(tasks := e.tasks) && |d.tasks| <= |e.tasks|
    ensures forall u :: 0 <= u < |d.tasks| && u != t ==> e.tasks[u] == d.tasks[u]
  {
  }

  lemma CertainTouchesOwn(d: Db, t: nat, cancelled: bool)
    requires t < |d.tasks|
    requires forall a :: d.tasks[t].app == Option.Some(a) ==>
               !SubmitIn(d, t, a, {InFlight, Unknown, Reconciling, NeedsReview})
    ensures OnlyOwn(d, Recover(d, t, cancelled), t, d.tasks[t].app)
  {
    if d.tasks[t].app.Some? {
      assert !SubmitIn(d, t, d.tasks[t].app.value, {InFlight, Unknown, Reconciling, NeedsReview});
    }
    hide StoppedBeforeDispatch;
  }

  lemma SubmitStepTouchesOwn(w: World, id: WorkerId, p: Phase, e: Event)
    requires e.Begins? || e.Authorizes? || e.Aborts? || e.Confirms? || e.RecordsRejection?
    requires p.lease.task < |w.db.tasks|
    ensures OnlyOwn(w.db, WorkerStep(w, id, p, e).db, p.lease.task, w.db.tasks[p.lease.task].app)
  {
    var d, l := w.db, p.lease;
    NothingTouched(d, l.task, d.tasks[l.task].app);
    hide Begin, AuthorizeDispatch, AbortBeforeDispatch, ConfirmReceipt, RecordRejection, OnlyOwn, OnlyAction;
    match e
    case Begins(_, revision, permitted) =>
      if Begin(d, l, revision, permitted).Some? {
        BeginTouchesOwn(d, l, revision, permitted);
      }
    case Authorizes(_, permitted) =>
      if p.Begun? {
        AuthorizeExactly(d, l, p.handle, permitted);
        var r := AuthorizeDispatch(d, l, p.handle, permitted);
        if r.Some? {
          OwnActionOnly(d, r.value, l.task, p.handle.app, p.handle.attempt, []);
        }
      }
    case Aborts(_) =>
      if p.Begun? {
        AbortExactly(d, l, p.handle);
        var r := AbortBeforeDispatch(d, l, p.handle);
        if r.Some? {
          OwnActionOnly(d, r.value, l.task, p.handle.app, p.handle.attempt, []);
        }
      }
    case Confirms(_) =>
      if p.Answered? {
        ConfirmExactly(d, l, p.handle, p.record);
        var r := ConfirmReceipt(d, l, p.handle, p.record);
        if r.Some? {
          OwnActionOnly(d, r.value, l.task, p.handle.app, p.handle.attempt,
                        [Receipt(p.handle.app, p.handle.attempt, p.record)]);
        }
      }
    case RecordsRejection(_) =>
      if p.Refused? {
        RejectExactly(d, l, p.handle);
        var r := RecordRejection(d, l, p.handle);
        if r.Some? {
          OwnActionOnly(d, r.value, l.task, p.handle.app, p.handle.attempt, []);
        }
      }
    case _ =>
  }

  lemma BeginTouchesOwn(d: Db, l: Lease, revision: nat, permitted: bool)
    requires l.task < |d.tasks| && Begin(d, l, revision, permitted).Some?
    ensures OnlyOwn(d, Begin(d, l, revision, permitted).value.0, l.task, d.tasks[l.task].app)
  {
    if d.tasks[l.task].app.Some? {
      BeginExactly(d, l, revision, permitted, d.tasks[l.task].app.value);
    } else {
      NoApplicationNoIntent(d, l, revision, permitted);
    }
    hide Begin;
  }

  lemma NoApplicationNoIntent(d: Db, l: Lease, revision: nat, permitted: bool)
    requires l.task < |d.tasks| && d.tasks[l.task].app.None?
    ensures Begin(d, l, revision, permitted).None?
  {
  }

  lemma ReconcileTouchesOwn(d: Db, l: Lease, evidence: Option<nat>)
    requires l.task < |d.tasks| && ReconcileReceipt(d, l, evidence).Some?
    ensures OnlyOwn(d, ReconcileReceipt(d, l, evidence).value, l.task, d.tasks[l.task].app)
  {
    var a := d.tasks[l.task].app.value;
    var i := Latest(d, a, |d.attempts|).value;
    assert Last(d, a, i);
    ReconcileExactly(d, l, evidence, a, i);
    hide ReconcileReceipt, Latest;
    var e := ReconcileReceipt(d, l, evidence).value;
    if evidence.Some? {
      OwnActionOnly(d, e, l.task, a, i, [Receipt(a, i, evidence.value)]);
    } else {
      OwnActionOnly(d, e, l.task, a, i, []);
    }
  }

  lemma QueueStepTouchesOwn(w: World, id: WorkerId, p: Phase, e: Event)
    requires e.Renews? || e.Completes? || e.Fails? || e.Reconciles?
    requires p.lease.task < |w.db.tasks|
    ensures OnlyOwn(w.db, WorkerStep(w, id, p, e).db, p.lease.task, w.db.tasks[p.lease.task].app)
  {
    var d, l := w.db, p.lease;
    hide Renew, Complete, Fail, ReconcileReceipt;
    match e
    case Renews(_, leaseMs) =>
      RenewExactly(d, l, leaseMs);
      if Renew(d, l, leaseMs).Some? {
        OwnTaskOnly(d, Renew(d, l, leaseMs).value, l.task, d.tasks[l.task].app);
      }
    case Completes(_) =>
      CompleteExactly(d, l);
      if Complete(d, l).Some? {
        OwnTaskOnly(d, Complete(d, l).value, l.task, d.tasks[l.task].app);
      }
    case Fails(_, retryable, delay) =>
      FailExactly(d, l, retryable, delay);
      RecoverOwn(d, l.task, false);
      hide OnlyOwn, Recover;
      if Fail(d, l, retryable, delay).Some? && Fail(d, l, retryable, delay).value != Recover(d, l.task, false) {
        OwnTaskOnly(d, Fail(d, l, retryable, delay).value, l.task, d.tasks[l.task].app);
      }
      NothingTouched(d, l.task, d.tasks[l.task].app);
    case Reconciles(_) =>
      if p.Observed? && ReconcileReceipt(d, l, p.evidence).Some? {
        ReconcileTouchesOwn(d, l, p.evidence);
      }
    case _ =>
  }

  lemma NothingTouched(d: Db, t: nat, a: Option<AppId>)
    ensures OnlyOwn(d, d, t, a)
  {
  }

  /** A worker writes nothing but its own task and the rows of that task's application. */
  lemma WorkerTouchesOnlyItsOwn(w: World, e: Event)
    requires OfWorker(e) && e.worker in w.workers && w.workers[e.worker].lease.task < |w.db.tasks|
    ensures var t := w.workers[e.worker].lease.task; OnlyOwn(w.db, Step(w, e).db, t, w.db.tasks[t].app)
  {
    var id, p := e.worker, w.workers[e.worker];
    assert Step(w, e) == WorkerStep(w, id, p, e);
    if e.Begins? || e.Authorizes? || e.Aborts? || e.Confirms? || e.RecordsRejection? {
      SubmitStepTouchesOwn(w, id, p, e);
    } else if e.Renews? || e.Completes? || e.Fails? || e.Reconciles? {
      QueueStepTouchesOwn(w, id, p, e);
    } else {
      NothingTouched(w.db, p.lease.task, w.db.tasks[p.lease.task].app);
      hide OnlyOwn;
    }
  }

  // ---- While submissions are paused ----

  /** No attempt is added, and none is dispatched that was not. */
  ghost predicate NothingSent(d: Db, e: Db) {
    |e.attempts| == |d.attempts| && forall i :: 0 <= i < |d.attempts| ==>
        e.attempts[i].dispatched == d.attempts[i].dispatched
  }

  lemma RecoverSendsNothing(d: Db, u: nat, cancelled: bool)
    requires u < |d.tasks|
    ensures NothingSent(d, Recover(d, u, cancelled))
  {
  }

  lemma {:induction false} RecoveriesSendNothing(d: Db, n: nat)
    requires n <= |d.tasks|
    ensures NothingSent(d, RecoverExpired(d, n)) && NothingSent(d, RecoverSubmits(d, n))
  {
    hide Recover;
    if n > 0 {
      RecoveriesSendNothing(d, n - 1);
      RecoverSendsNothing(RecoverExpired(d, n - 1), n - 1, false);
      RecoverSendsNothing(RecoverSubmits(d, n - 1), n - 1, true);
    }
  }

  lemma ClaimSendsNothing(d: Db, worker: WorkerId, kinds: set<Kind>, leaseMs: nat, concurrency: nat)
    ensures NothingSent(d, Claim(d, worker, kinds, leaseMs, concurrency).0)
  {
    RecoveriesSendNothing(d, |d.tasks|);
    hide RecoverExpired, CanClaim, Best;
  }

  /** While submissions are paused or stopped, no step begins an attempt or authorises a dispatch. */
  lemma PausedStepSendsNothing(w: World, e: Event)
    requires w.db.paused || w.db.stopped
    ensures NothingSent(w.db, Step(w, e).db)
  {
    if OfWorker(e) {
      if e.worker in w.workers {
        PausedWorkerSendsNothing(w, e.worker, w.workers[e.worker], e);
      }
    } else {
      hide Recover, RecoverSubmits, Claim;
      match e
      case Controls(paused, stopped) =>
        RecoveriesSendNothing(w.db.(paused := paused, stopped := stopped), |w.db.tasks|);
      case Cancels(u) =>
        if u < |w.db.tasks| {
          RecoverSendsNothing(w.db, u, true);
        }
      case Claims(id, kinds, leaseMs, concurrency) => ClaimSendsNothing(w.db, id, kinds, leaseMs, concurrency);
      case _ =>
    }
  }

  /** Stopping an attempt, and recording or reconciling its outcome, dispatches nothing. */
  lemma LateSendsNothing(d: Db, p: Phase)
    ensures p.Begun? ==> var r := AbortBeforeDispatch(d, p.lease, p.handle); r.Some? ==> NothingSent(d, r.value)
    ensures p.Answered? ==>
              var r := ConfirmReceipt(d, p.lease, p.handle, p.record); r.Some? ==> NothingSent(d, r.value)
    ensures p.Refused? ==> var r := RecordRejection(d, p.lease, p.handle); r.Some? ==> NothingSent(d, r.value)
    ensures p.Observed? ==> var r := ReconcileReceipt(d, p.lease, p.evidence); r.Some? ==> NothingSent(d, r.value)
  {
  }

  lemma PausedWorkerSendsNothing(w: World, id: WorkerId, p: Phase, e: Event)
    requires w.db.paused || w.db.stopped
    ensures NothingSent(w.db, WorkerStep(w, id, p, e).db)
  {
    if e.Begins? || e.Authorizes? {
      PausedActsOnNothing(w, id, p, e);
    } else {
      LaterStepSendsNothing(w, id, p, e);
    }
  }

  lemma PausedActsOnNothing(w: World, id: WorkerId, p: Phase, e: Event)
    requires (w.db.paused || w.db.stopped) && (e.Begins? || e.Authorizes?)
    ensures NothingSent(w.db, WorkerStep(w, id, p, e).db)
  {
    hide Begin, AuthorizeDispatch;
    if e.Begins? {
      PausedMeansNothingLeaves(w.db, p.lease, Handle(0, 0, 0), e.revision, e.permitted);
    } else if p.Begun? {
      PausedMeansNothingLeaves(w.db, p.lease, p.handle, 0, e.permitted);
    }
  }

  lemma LaterStepSendsNothing(w: World, id: WorkerId, p: Phase, e: Event)
    requires !e.Begins? && !e.Authorizes?
    ensures NothingSent(w.db, WorkerStep(w, id, p, e).db)
  {
    hide Recover, AbortBeforeDispatch, ConfirmReceipt, RecordRejection, ReconcileReceipt;
    LateSendsNothing(w.db, p);
    if e.Fails? && p.lease.task < |w.db.tasks| {
      RecoverSendsNothing(w.db, p.lease.task, false);
    }
  }
}
