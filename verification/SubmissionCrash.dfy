/**
 What recovery finds of a submit lease whose worker is gone, in any run and any interleaving
 (scripts/commit-crash-run.ts, packages/persistence/src/repository.ts).
 */
module SubmissionCrash {
  import opened Outcome
  import opened SubmissionDb
  import opened SubmissionProtocol
  import opened SubmissionRecovery
  import opened SubmissionQueue

  // ---- The story of a lease ----

  /** Task `t`, a submit of application `a`, is leased at fence `f`. */
  ghost predicate Held(d: Db, t: nat, a: AppId, f: nat) {
    && t < |d.tasks| && d.tasks[t].kind == Submit && d.tasks[t].app == Option.Some(a) && a in d.apps
    && d.tasks[t].state == Leased && d.tasks[t].fence == f
  }

  /** Attempt `i` of application `a` was recorded under fence `f`. */
  ghost predicate Own(d: Db, a: AppId, f: nat, i: nat) {
    i < |d.attempts| && d.attempts[i].app == a && d.attempts[i].fence == f
  }

  /** The state of an application whose attempt is in state `s`. */
  function Verdict(s: AttemptState): AppState {
    match s
    case Flying => InFlight
    case Uncertain => Unknown
    case Blocked => Unsupported
    case Accepted => Confirmed
    case Rejected => DefinitiveFailure
  }

  /** What a lease starts from: its application, and the number of attempts on record. */
  datatype Origin = Origin(app: App, attempts: nat)

  /** No intent was recorded under the lease; the application is as it was, and has no new attempt. */
  ghost predicate Untold(d: Db, t: nat, a: AppId, f: nat, from: Origin) {
    && Held(d, t, a, f) && d.apps[a] == from.app && !Final(from.app.state)
    && (forall i :: !Own(d, a, f, i))
    && forall i :: 0 <= i < |d.attempts| && d.attempts[i].app == a ==> i < from.attempts
  }

  /** Attempt `i` is the one recorded under the lease, bound to its task, and the application says what became of it. */
  ghost predicate Told(d: Db, t: nat, a: AppId, f: nat, i: nat) {
    && Held(d, t, a, f) && Own(d, a, f, i) && (forall j :: Own(d, a, f, j) ==> j == i)
    && d.apps[a].state == Verdict(d.attempts[i].state)
    && d.attempts[i].intent < |d.intents| && d.intents[d.attempts[i].intent].task == t
    && d.intents[d.attempts[i].intent].fence == f
  }

  ghost predicate Story(d: Db, t: nat, a: AppId, f: nat, from: Origin) {
    Untold(d, t, a, f, from) || exists i: nat :: Told(d, t, a, f, i)
  }

  lemma StoryIsHeld(d: Db, t: nat, a: AppId, f: nat, from: Origin)
    requires Story(d, t, a, f, from)
    ensures Held(d, t, a, f)
  {
  }

  /** The rows of application `a` are the same, and no attempt of it was added. */
  ghost predicate SameRows(d: Db, e: Db, a: AppId) {
    && a in d.apps && a in e.apps && e.apps[a] == d.apps[a]
    && d.intents <= e.intents && |d.attempts| <= |e.attempts|
    && (forall i :: 0 <= i < |d.attempts| ==>
          e.attempts[i].app == d.attempts[i].app && (d.attempts[i].app == a ==> e.attempts[i] == d.attempts[i]))
    && (forall i :: |d.attempts| <= i < |e.attempts| ==> e.attempts[i].app != a)
  }

  lemma SameRowsTrans(d: Db, e: Db, g: Db, a: AppId)
    requires SameRows(d, e, a) && SameRows(e, g, a)
    ensures SameRows(d, g, a)
  {
    forall i | |d.attempts| <= i < |g.attempts|
      ensures g.attempts[i].app != a
    {
      assert i < |e.attempts| ==> e.attempts[i].app != a;
    }
  }

  lemma SameRowsKeepStory(d: Db, e: Db, t: nat, a: AppId, f: nat, from: Origin)
    requires Story(d, t, a, f, from) && SameRows(d, e, a) && Held(e, t, a, f)
    ensures Story(e, t, a, f, from)
  {
    forall i
      ensures Own(e, a, f, i) <==> Own(d, a, f, i)
    {
    }
    if i: nat :| Told(d, t, a, f, i) {
      assert Own(e, a, f, i);
      assert Told(e, t, a, f, i);
    }
  }

  // ---- What one transaction does to the story ----

  lemma GroundElsewhere(d: Db, b: AppId, a: AppId)
    requires a in d.apps && b in d.apps && a != b
    ensures SameRows(d, SetApp(d, b, Unknown, 1).(attempts := Grounded(d.attempts, b)), a)
  {
  }

  lemma RecoverElsewhere(d: Db, u: nat, cancelled: bool, a: AppId)
    requires u < |d.tasks| && a in d.apps && (d.tasks[u].app != Option.Some(a) || d.apps[a].state != InFlight)
    ensures SameRows(d, Recover(d, u, cancelled), a)
  {
    var task := d.tasks[u];
    if task.kind == Submit && HasApp(d, u) && d.apps[task.app.value].state == InFlight {
      GroundElsewhere(d, task.app.value, a);
    }
  }

  /** Recovering another task of an application in flight puts its attempt in doubt. */
  lemma GroundingTells(d: Db, u: nat, cancelled: bool, t: nat, a: AppId, f: nat, from: Origin)
    requires Story(d, t, a, f, from) && u < |d.tasks| && u != t && d.tasks[u].app == Option.Some(a)
             && d.apps[a].state == InFlight
    requires Held(Recover(d, u, cancelled), t, a, f)
    ensures Story(Recover(d, u, cancelled), t, a, f, from)
  {
    var e := Recover(d, u, cancelled);
    if d.tasks[u].kind == Submit {
      var i: nat :| Told(d, t, a, f, i);
      assert d.attempts[i].state == Flying;
      forall j
        ensures Own(e, a, f, j) <==> Own(d, a, f, j)
      {
      }
      assert e.attempts[i] == d.attempts[i].(state := Uncertain);
      assert Told(e, t, a, f, i);
    } else {
      SameRowsKeepStory(d, e, t, a, f, from);
    }
  }

  lemma {:induction false} RecoveriesElsewhere(d: Db, n: nat, t: nat, a: AppId, f: nat)
    requires n <= |d.tasks| && Exclusive(d) && Held(d, t, a, f)
    ensures t < |RecoverExpired(d, n).tasks| && t < |RecoverSubmits(d, n).tasks|
    ensures RecoverExpired(d, n).tasks[t].state == Leased ==> SameRows(d, RecoverExpired(d, n), a)
    ensures RecoverSubmits(d, n).tasks[t].state == Leased ==> SameRows(d, RecoverSubmits(d, n), a)
  {
    hide Recover, SameRows, Exclusive, Quiet;
    if n == 0 {
      SameRowsRefl(d, a);
    } else {
      RecoveriesElsewhere(d, n - 1, t, a, f);
      var x, y := RecoverExpired(d, n - 1), RecoverSubmits(d, n - 1);
      RecoveriesAreQuiet(d, n - 1);
      if x.tasks[n - 1].state == Leased {
        RecoveryElsewhere(d, x, n - 1, false, t, a, f);
      }
      if y.tasks[n - 1].state == Leased {
        RecoveryElsewhere(d, y, n - 1, true, t, a, f);
      }
    }
  }

  lemma SameRowsRefl(d: Db, a: AppId)
    requires a in d.apps
    ensures SameRows(d, d, a)
  {
  }

  lemma RecoveryElsewhere(d: Db, x: Db, u: nat, cancelled: bool, t: nat, a: AppId, f: nat)
    requires Exclusive(d) && Held(d, t, a, f) && Quiet(d, x) && u < |d.tasks| && x.tasks[u].state == Leased
    requires x.tasks[t].state == Leased ==> SameRows(d, x, a)
    ensures t < |Recover(x, u, cancelled).tasks|
    ensures Recover(x, u, cancelled).tasks[t].state == Leased ==> SameRows(d, Recover(x, u, cancelled), a)
  {
    RecoverIsQuiet(x, u, cancelled);
    assert Kept(d.tasks[u], x.tasks[u]) && Kept(d.tasks[t], x.tasks[t]);
    assert Kept(x.tasks[t], Recover(x, u, cancelled).tasks[t]);
    if Recover(x, u, cancelled).tasks[t].state == Leased {
      assert u != t;
      assert d.tasks[u].app != Option.Some(a);
      hide Recover;
      RecoverElsewhere(x, u, cancelled, a);
      SameRowsTrans(d, x, Recover(x, u, cancelled), a);
    }
  }

  lemma OnlyLease(d: Db, l: Lease, kind: Kind, t: nat, a: AppId, f: nat)
    requires Exclusive(d) && Held(d, t, a, f) && ValidLease(d, l, kind) && d.tasks[l.task].app == Option.Some(a)
    ensures l.task == t && l.fence == f && kind == Submit
  {
  }

  lemma BeginTells(d: Db, l: Lease, revision: nat, permitted: bool, t: nat, a: AppId, f: nat, from: Origin)
    requires QueueInv(d) && Story(d, t, a, f, from) && Begin(d, l, revision, permitted).Some?
    ensures Story(Begin(d, l, revision, permitted).value.0, t, a, f, from)
  {
    var (e, h) := Begin(d, l, revision, permitted).value;
    if h.app == a {
      OnlyLease(d, l, Submit, t, a, f);
      assert Untold(d, t, a, f, from);
      forall j
        ensures Own(e, a, f, j) <==> j == |d.attempts|
      {
        assert !Own(d, a, f, j);
      }
      assert Told(e, t, a, f, |d.attempts|);
    } else {
      SameRowsKeepStory(d, e, t, a, f, from);
    }
  }

  /** A worker's transaction on a flying attempt of `a` is one on the lease's own attempt. */
  lemma FlyingIsOwn(d: Db, l: Lease, h: Handle, t: nat, a: AppId, f: nat, from: Origin)
    requires DbInv(d) && QueueInv(d) && Story(d, t, a, f, from) && InFlightUnder(d, l, h) && h.app == a
    ensures l.task == t && Told(d, t, a, f, h.attempt)
  {
    OnlyLease(d, l, Submit, t, a, f);
    var i: nat :| Told(d, t, a, f, i);
    assert d.attempts[i].state == Flying;
    assert i == h.attempt;
  }

  /** The lease's own attempt changes, and the application with it. */
  lemma ChangeTells(d: Db, e: Db, t: nat, a: AppId, f: nat, i: nat, from: Origin)
    requires Told(d, t, a, f, i) && Held(e, t, a, f) && d.intents <= e.intents
    requires |e.attempts| == |d.attempts| && forall j :: 0 <= j < |d.attempts| && j != i ==>
               e.attempts[j] == d.attempts[j]
    requires e.attempts[i].app == a && e.attempts[i].fence == f && e.attempts[i].intent == d.attempts[i].intent
    requires e.apps[a].state == Verdict(e.attempts[i].state)
    ensures Story(e, t, a, f, from)
  {
    forall j
      ensures Own(e, a, f, j) <==> Own(d, a, f, j)
    {
    }
    assert Told(e, t, a, f, i);
  }

  lemma AuthorizeTells(d: Db, l: Lease, h: Handle, permitted: bool, t: nat, a: AppId, f: nat, from: Origin)
    requires DbInv(d) && QueueInv(d) && Story(d, t, a, f, from) && AuthorizeDispatch(d, l, h, permitted).Some?
    ensures Story(AuthorizeDispatch(d, l, h, permitted).value, t, a, f, from)
  {
    var e := AuthorizeDispatch(d, l, h, permitted).value;
    if h.app == a {
      FlyingIsOwn(d, l, h, t, a, f, from);
      ChangeTells(d, e, t, a, f, h.attempt, from);
    } else {
      SameRowsKeepStory(d, e, t, a, f, from);
    }
  }

  lemma AbortTells(d: Db, l: Lease, h: Handle, t: nat, a: AppId, f: nat, from: Origin)
    requires DbInv(d) && QueueInv(d) && Story(d, t, a, f, from) && AbortBeforeDispatch(d, l, h).Some?
    ensures Story(AbortBeforeDispatch(d, l, h).value, t, a, f, from)
  {
    var e := AbortBeforeDispatch(d, l, h).value;
    if h.app == a {
      FlyingIsOwn(d, l, h, t, a, f, from);
      ChangeTells(d, e, t, a, f, h.attempt, from);
    } else {
      SameRowsKeepStory(d, e, t, a, f, from);
    }
  }

  lemma ConfirmTells(d: Db, l: Lease, h: Handle, record: nat, t: nat, a: AppId, f: nat, from: Origin)
    requires DbInv(d) && QueueInv(d) && Story(d, t, a, f, from) && ConfirmReceipt(d, l, h, record).Some?
    ensures Story(ConfirmReceipt(d, l, h, record).value, t, a, f, from)
  {
    var e := ConfirmReceipt(d, l, h, record).value;
    if h.app == a {
      FlyingIsOwn(d, l, h, t, a, f, from);
      ChangeTells(d, e, t, a, f, h.attempt, from);
    } else {
      SameRowsKeepStory(d, e, t, a, f, from);
    }
  }

  lemma RejectTells(d: Db, l: Lease, h: Handle, t: nat, a: AppId, f: nat, from: Origin)
    requires DbInv(d) && QueueInv(d) && Story(d, t, a, f, from) && RecordRejection(d, l, h).Some?
    ensures Story(RecordRejection(d, l, h).value, t, a, f, from)
  {
    var e := RecordRejection(d, l, h).value;
    if h.app == a {
      FlyingIsOwn(d, l, h, t, a, f, from);
      ChangeTells(d, e, t, a, f, h.attempt, from);
    } else {
      SameRowsKeepStory(d, e, t, a, f, from);
    }
  }

  lemma ReconcileTells(d: Db, l: Lease, evidence: Option<nat>, t: nat, a: AppId, f: nat, from: Origin)
    requires QueueInv(d) && Story(d, t, a, f, from) && ReconcileReceipt(d, l, evidence).Some?
    ensures Story(ReconcileReceipt(d, l, evidence).value, t, a, f, from)
  {
    var e := ReconcileReceipt(d, l, evidence).value;
    assert d.tasks[l.task].app.value != a by {
      if d.tasks[l.task].app.value == a {
        OnlyLease(d, l, Reconcile, t, a, f);
      }
    }
    SameRowsKeepStory(d, e, t, a, f, from);
  }

  lemma FailTells(d: Db, l: Lease, retryable: bool, delay: nat, t: nat, a: AppId, f: nat, from: Origin)
    requires QueueInv(d) && Story(d, t, a, f, from) && Fail(d, l, retryable, delay).Some?
    requires Held(Fail(d, l, retryable, delay).value, t, a, f)
    ensures Story(Fail(d, l, retryable, delay).value, t, a, f, from)
  {
    var e := Fail(d, l, retryable, delay).value;
    RecoverIsQuiet(d, l.task, false);
    assert l.task != t;
    assert d.tasks[l.task].app != Option.Some(a);
    hide Recover;
    RecoverElsewhere(d, l.task, false, a);
    SameRowsKeepStory(d, e, t, a, f, from);
  }

  lemma CancelTells(d: Db, u: nat, t: nat, a: AppId, f: nat, from: Origin)
    requires Story(d, t, a, f, from) && u < |d.tasks| && d.tasks[u].state != Cancelled
    requires Held(Recover(d, u, true), t, a, f)
    ensures Story(Recover(d, u, true), t, a, f, from)
  {
    RecoverIsQuiet(d, u, true);
    assert u != t;
    hide Recover;
    if d.tasks[u].app == Option.Some(a) && d.apps[a].state == InFlight {
      GroundingTells(d, u, true, t, a, f, from);
    } else {
      RecoverElsewhere(d, u, true, a);
      SameRowsKeepStory(d, Recover(d, u, true), t, a, f, from);
    }
  }

  lemma GrantElsewhere(d: Db, kinds: set<Kind>, u: nat, worker: WorkerId, leaseMs: nat, t: nat, a: AppId, f: nat)
    requires Held(d, t, a, f) && u < |d.tasks| && u != t && CanClaim(d, kinds, u)
    ensures SameRows(d, Grant(d, u, worker, leaseMs), a)
  {
    assert Unobstructed(d, u);
  }

  lemma ClaimTells(d: Db, worker: WorkerId, kinds: set<Kind>, leaseMs: nat, concurrency: nat, t: nat, a: AppId, f: nat,
                   from: Origin)
    requires QueueInv(d) && Story(d, t, a, f, from)
    requires Held(Claim(d, worker, kinds, leaseMs, concurrency).0, t, a, f)
    ensures Story(Claim(d, worker, kinds, leaseMs, concurrency).0, t, a, f, from)
  {
    var e, g := RecoverExpired(d, |d.tasks|), Claim(d, worker, kinds, leaseMs, concurrency).0;
    RecoveriesElsewhere(d, |d.tasks|, t, a, f);
    RecoveriesAreQuiet(d, |d.tasks|);
    assert Kept(d.tasks[t], e.tasks[t]);
    assert f <= e.nextFence;
    hide RecoverExpired, Quiet, QueueInv, SameRows, Story, CanClaim;
    if g == e {
      SameRowsKeepStory(d, e, t, a, f, from);
    } else if g != d {
      var u := Best(e, Allowed(e, kinds), |e.tasks|).value;
      assert u != t && Held(e, t, a, f);
      GrantElsewhere(e, Allowed(e, kinds), u, worker, leaseMs, t, a, f);
      SameRowsTrans(d, e, g, a);
      SameRowsKeepStory(d, g, t, a, f, from);
    }
  }

  lemma ControlTells(d: Db, paused: bool, stopped: bool, t: nat, a: AppId, f: nat, from: Origin)
    requires QueueInv(d) && Story(d, t, a, f, from) && Held(SetControl(d, paused, stopped), t, a, f)
    ensures Story(SetControl(d, paused, stopped), t, a, f, from)
  {
    var c := d.(paused := paused, stopped := stopped);
    assert SameRows(d, c, a);
    RecoveriesElsewhere(c, |c.tasks|, t, a, f);
    hide RecoverSubmits;
    if paused || stopped {
      SameRowsTrans(d, c, RecoverSubmits(c, |c.tasks|), a);
    }
    SameRowsKeepStory(d, SetControl(d, paused, stopped), t, a, f, from);
  }

  // ---- What every step does to the story ----

  lemma QueueStepTells(w: World, e: Event, t: nat, a: AppId, f: nat, from: Origin)
    requires QueueInv(w.db) && Story(w.db, t, a, f, from) && !OfWorker(e) && !Moving(e, a)
    requires Held(Step(w, e).db, t, a, f)
    ensures Story(Step(w, e).db, t, a, f, from)
  {
    hide Story, QueueInv, Recover, RecoverSubmits, Claim;
    var v := Step(w, e);
    StoryIsHeld(w.db, t, a, f, from);
    if SameRows(w.db, v.db, a) {
      SameRowsKeepStory(w.db, v.db, t, a, f, from);
    } else {
      match e
      case Controls(paused, stopped) => ControlTells(w.db, paused, stopped, t, a, f, from);
      case Cancels(u) => CancelTells(w.db, u, t, a, f, from);
      case Claims(id, kinds, leaseMs, concurrency) => ClaimTells(w.db, id, kinds, leaseMs, concurrency, t, a, f, from);
      case _ =>
    }
  }

  lemma WorkerStepTells(w: World, id: WorkerId, p: Phase, e: Event, t: nat, a: AppId, f: nat, from: Origin)
    requires DbInv(w.db) && QueueInv(w.db) && Story(w.db, t, a, f, from)
    requires Held(WorkerStep(w, id, p, e).db, t, a, f)
    ensures Story(WorkerStep(w, id, p, e).db, t, a, f, from)
  {
    hide Story, QueueInv, DbInv, Begin, AuthorizeDispatch, AbortBeforeDispatch, ConfirmReceipt, RecordRejection,
      ReconcileReceipt, Fail;
    var d, v := w.db, WorkerStep(w, id, p, e);
    StoryIsHeld(d, t, a, f, from);
    if SameRows(d, v.db, a) {
      SameRowsKeepStory(d, v.db, t, a, f, from);
    } else {
      match e
      case Begins(_, revision, permitted) => BeginTells(d, p.lease, revision, permitted, t, a, f, from);
      case Authorizes(_, permitted) => AuthorizeTells(d, p.lease, p.handle, permitted, t, a, f, from);
      case Aborts(_) => AbortTells(d, p.lease, p.handle, t, a, f, from);
      case Confirms(_) => ConfirmTells(d, p.lease, p.handle, p.record, t, a, f, from);
      case RecordsRejection(_) => RejectTells(d, p.lease, p.handle, t, a, f, from);
      case Reconciles(_) => ReconcileTells(d, p.lease, p.evidence, t, a, f, from);
      case Fails(_, retryable, delay) => FailTells(d, p.lease, retryable, delay, t, a, f, from);
      case _ =>
    }
  }

  lemma StepTells(w: World, e: Event, t: nat, a: AppId, f: nat, from: Origin)
    requires WorldInv(w) && QueueInv(w.db) && Story(w.db, t, a, f, from) && !Moving(e, a)
    requires Held(Step(w, e).db, t, a, f)
    ensures Story(Step(w, e).db, t, a, f, from)
  {
    if !OfWorker(e) {
      QueueStepTells(w, e, t, a, f, from);
    } else {
      hide QueueInv, Story, DbInv, Held, WorkerStep, EmployerOk, ReceiptsTrue, WorkersOk;
      if e.worker in w.workers {
        WorkerStepTells(w, e.worker, w.workers[e.worker], e, t, a, f, from);
      }
    }
  }

  // ---- The story of a run ----

  /** A lease never starts again at a fence already drawn. */
  lemma LeasedBefore(w: World, e: Event, t: nat, f: nat)
    requires QueueInv(w.db) && t < |w.db.tasks| && f <= w.db.nextFence
    requires t < |Step(w, e).db.tasks| && Step(w, e).db.tasks[t].state == Leased && Step(w, e).db.tasks[t].fence == f
    ensures w.db.tasks[t].state == Leased && w.db.tasks[t].fence == f
  {
    hide QueueInv;
    if e.Claims? {
      ClaimedBefore(w, e, t, f);
    } else if e.Begins? {
      assert Step(w, e).db.tasks == w.db.tasks;
    } else {
      hide Step;
      StepIsQuiet(w, e);
      assert Kept(w.db.tasks[t], Step(w, e).db.tasks[t]);
    }
  }

  lemma ClaimedBefore(w: World, e: Event, t: nat, f: nat)
    requires t < |w.db.tasks| && f <= w.db.nextFence && e.Claims?
    requires t < |Step(w, e).db.tasks| && Step(w, e).db.tasks[t].state == Leased && Step(w, e).db.tasks[t].fence == f
    ensures w.db.tasks[t].state == Leased && w.db.tasks[t].fence == f
  {
    var c := Claim(w.db, e.worker, e.kinds, e.leaseMs, e.concurrency).0;
    ClaimStepDb(w, e);
    hide Step;
    RecoveriesAreQuiet(w.db, |w.db.tasks|);
    var d := RecoverExpired(w.db, |w.db.tasks|);
    assert d.nextFence == w.db.nextFence && Kept(w.db.tasks[t], d.tasks[t]);
    hide RecoverExpired, Quiet, CanClaim, Best, Allowed, LeasedCount;
  }

  lemma ClaimStepDb(w: World, e: Event)
    requires e.Claims?
    ensures Step(w, e).db == if e.worker in w.workers then w.db
            else Claim(w.db, e.worker, e.kinds, e.leaseMs, e.concurrency).0
  {
    hide Claim;
  }

  /** A run, and a submit lease in it: task `task` of application `app`, leased by event `start` at fence `fence`. */
  datatype Course = Course(run: seq<World>, events: seq<Event>, start: nat, task: nat, app: AppId, fence: nat)

  ghost predicate IsCourse(c: Course) {
    && IsRun(c.run, c.events) && QueueInv(c.run[0].db) && c.start < |c.events|
    && LeaseBegins(c.run[c.start], c.events[c.start], c.run[c.start + 1], c.task, c.app, c.fence)
  }

  /** The step from `w` to `v` leases task `t`, a submit of `a`, at fence `f`. */
  ghost predicate LeaseBegins(w: World, e: Event, v: World, t: nat, a: AppId, f: nat) {
    && e.Claims? && e.worker !in w.workers
    && e.worker in v.workers && v.workers[e.worker] == Holding(Lease(t, f, e.worker)) && Held(v.db, t, a, f)
  }

  /** What the lease starts from. */
  ghost function Start(c: Course): Origin
    requires IsCourse(c)
  {
    var d := c.run[c.start + 1].db;
    Origin(d.apps[c.app], |d.attempts|)
  }

  /** Between the start of the lease and moment `n` no other repository moves the application. */
  ghost predicate Undisturbed(c: Course, n: nat) {
    forall k :: c.start < k < n && k < |c.events| ==> !Moving(c.events[k], c.app)
  }

  predicate Moving(e: Event, a: AppId) {
    e.Moves? && e.app == a
  }

  /** At moment `n` the lease has run out, and nobody has recovered, completed, failed or cancelled its task yet. */
  ghost predicate RunOut(c: Course, n: nat) {
    && c.start < n && LeaseStands(c.run, n, c.task, c.fence)
    && c.run[n].db.tasks[c.task].until <= c.run[n].db.now
  }

  /** The lease begun at `m` is still in force at `n`: not recovered, completed, failed or cancelled. */
  ghost predicate LeaseStands(run: seq<World>, n: nat, t: nat, f: nat) {
    n < |run| && t < |run[n].db.tasks| && run[n].db.tasks[t].state == Leased && run[n].db.tasks[t].fence == f
  }

  lemma {:induction false} StoodAllAlong(run: seq<World>, events: seq<Event>, m: nat, k: nat, n: nat, t: nat, f: nat)
    requires IsRun(run, events) && QueueInv(run[0].db) && m <= k <= n < |run| && t < |run[m].db.tasks|
             && f <= run[m].db.nextFence
    requires LeaseStands(run, n, t, f)
    ensures LeaseStands(run, k, t, f)
    decreases n - k
  {
    hide Step, QueueInv, WorldInv;
    if k < n {
      StoodAllAlong(run, events, m, k + 1, n, t, f);
      LeasesExclude(run, events, k);
      FenceGrows(run, events, m, k);
      RunExtends(run, events, m, k);
      assert t < |run[k].db.tasks|;
      LeasedBefore(run[k], events[k], t, f);
    }
  }

  lemma {:induction false} FenceGrows(run: seq<World>, events: seq<Event>, m: nat, n: nat)
    requires IsRun(run, events) && QueueInv(run[0].db) && m <= n < |run|
    ensures run[m].db.nextFence <= run[n].db.nextFence
  {
    hide Step, QueueInv;
    if m < n {
      FenceGrows(run, events, m, n - 1);
      LeasesExclude(run, events, n - 1);
      StepKeepsQueue(run[n - 1], events[n - 1]);
    }
  }

  lemma ClaimStartsUntold(d: Db, worker: WorkerId, kinds: set<Kind>, leaseMs: nat, concurrency: nat, t: nat, a: AppId)
    requires QueueInv(d)
    requires var (e, lease) := Claim(d, worker, kinds, leaseMs, concurrency);
             lease.Some? && lease.value.task == t && Held(e, t, a, lease.value.fence)
    ensures var (e, lease) := Claim(d, worker, kinds, leaseMs, concurrency);
            Untold(e, t, a, lease.value.fence, Origin(e.apps[a], |e.attempts|)) && lease.value.fence <= e.nextFence
  {
    var r := RecoverExpired(d, |d.tasks|);
    RecoveriesAreQuiet(d, |d.tasks|);
    QuietKeepsQueue(d, r);
    var (e, lease) := Claim(d, worker, kinds, leaseMs, concurrency);
    var f := lease.value.fence;
    assert CanClaim(r, Allowed(r, kinds), t) && f == r.nextFence + 1 && e == Grant(r, t, worker, leaseMs);
    hide RecoverExpired, Quiet, Claim, CanClaim;
    GrantStartsUntold(r, Allowed(r, kinds), t, worker, leaseMs, a);
  }

  lemma GrantStartsUntold(r: Db, kinds: set<Kind>, t: nat, worker: WorkerId, leaseMs: nat, a: AppId)
    requires QueueInv(r) && t < |r.tasks| && CanClaim(r, kinds, t)
             && Held(Grant(r, t, worker, leaseMs), t, a, r.nextFence + 1)
    ensures var e := Grant(r, t, worker, leaseMs);
            Untold(e, t, a, r.nextFence + 1, Origin(e.apps[a], |e.attempts|)) && e.nextFence == r.nextFence + 1
  {
    var e, f := Grant(r, t, worker, leaseMs), r.nextFence + 1;
    forall i: nat
      ensures !Own(e, a, f, i)
    {
      assert i < |r.attempts| ==> r.attempts[i].fence <= r.nextFence;
    }
  }

  lemma StartsUntold(c: Course)
    requires IsCourse(c)
    ensures Untold(c.run[c.start + 1].db, c.task, c.app, c.fence, Start(c))
            && c.fence <= c.run[c.start + 1].db.nextFence
    ensures c.task < |c.run[c.start + 1].db.tasks|
  {
    LeasesExclude(c.run, c.events, c.start);
    var w, e := c.run[c.start], c.events[c.start];
    assert c.task < |c.run[c.start + 1].db.tasks|;
    hide Claim, QueueInv, Untold, Held;
    assert c.run[c.start + 1] == Step(w, e);
    ClaimStartsUntold(w.db, e.worker, e.kinds, e.leaseMs, e.concurrency, c.task, c.app);
  }

  /**
   In every run, while a submit lease stands and no other repository moves its application, the rows tell what
   the lease did: nothing yet, with the application as it was, or one attempt whose state the application shows.
   */
  lemma {:induction false} RowsTellTheStory(c: Course, n: nat)
    requires IsCourse(c) && c.start < n && LeaseStands(c.run, n, c.task, c.fence) && Undisturbed(c, n)
    ensures Story(c.run[n].db, c.task, c.app, c.fence, Start(c))
  {
    hide Step, QueueInv, WorldInv, Story, Held, Untold;
    StartsUntold(c);
    var w, e := c.run[n - 1], c.events[n - 1];
    if n == c.start + 1 {
      UntoldIsStory(c.run[n].db, c.task, c.app, c.fence, Start(c));
    } else {
      StoodAllAlong(c.run, c.events, c.start + 1, n - 1, n, c.task, c.fence);
      RowsTellTheStory(c, n - 1);
      RunKeepsInv(c.run, c.events, n - 1);
      LeasesExclude(c.run, c.events, n - 1);
      StillHeld(w, e, c.task, c.app, c.fence, Start(c));
      StepTells(w, e, c.task, c.app, c.fence, Start(c));
    }
  }

  lemma UntoldIsStory(d: Db, t: nat, a: AppId, f: nat, from: Origin)
    requires Untold(d, t, a, f, from)
    ensures Story(d, t, a, f, from)
  {
  }

  lemma StillHeld(w: World, e: Event, t: nat, a: AppId, f: nat, from: Origin)
    requires WorldInv(w) && Story(w.db, t, a, f, from)
    requires t < |Step(w, e).db.tasks| && Step(w, e).db.tasks[t].state == Leased && Step(w, e).db.tasks[t].fence == f
    ensures Held(Step(w, e).db, t, a, f)
  {
    hide Step, WorldInv;
    StepProgresses(w, e);
    StepKeepsKindAndApps(w, e, t, a);
  }

  lemma StepKeepsKindAndApps(w: World, e: Event, t: nat, a: AppId)
    requires t < |w.db.tasks| && a in w.db.apps && t < |Step(w, e).db.tasks|
    ensures Step(w, e).db.tasks[t].kind == w.db.tasks[t].kind && Step(w, e).db.tasks[t].app == w.db.tasks[t].app
            && a in Step(w, e).db.apps
  {
    StepKeepsApps(w, e, a);
    if e.Claims? {
      ClaimKeepsKind(w, e, t);
    } else if e.Begins? {
      assert Step(w, e).db.tasks == w.db.tasks;
    } else {
      hide Step;
      StepIsQuiet(w, e);
      assert Kept(w.db.tasks[t], Step(w, e).db.tasks[t]);
    }
  }

  lemma ClaimKeepsKind(w: World, e: Event, t: nat)
    requires t < |w.db.tasks| && e.Claims? && t < |Step(w, e).db.tasks|
    ensures Step(w, e).db.tasks[t].kind == w.db.tasks[t].kind && Step(w, e).db.tasks[t].app == w.db.tasks[t].app
  {
    ClaimStepDb(w, e);
    hide Step;
    RecoveriesAreQuiet(w.db, |w.db.tasks|);
    assert Kept(w.db.tasks[t], RecoverExpired(w.db, |w.db.tasks|).tasks[t]);
    hide RecoverExpired, Quiet, CanClaim, Best, Allowed, LeasedCount;
  }

  lemma RecoverKeepsApps(d: Db, t: nat, cancelled: bool, a: AppId)
    requires t < |d.tasks| && a in d.apps
    ensures a in Recover(d, t, cancelled).apps
  {
  }

  lemma {:induction false} RecoveriesKeepApps(d: Db, n: nat, a: AppId)
    requires n <= |d.tasks| && a in d.apps
    ensures a in RecoverExpired(d, n).apps && a in RecoverSubmits(d, n).apps
  {
    hide Recover;
    if n > 0 {
      RecoveriesKeepApps(d, n - 1, a);
      RecoverKeepsApps(RecoverExpired(d, n - 1), n - 1, false, a);
      RecoverKeepsApps(RecoverSubmits(d, n - 1), n - 1, true, a);
    }
  }

  lemma ClaimKeepsApps(d: Db, worker: WorkerId, kinds: set<Kind>, leaseMs: nat, concurrency: nat, a: AppId)
    requires a in d.apps
    ensures a in Claim(d, worker, kinds, leaseMs, concurrency).0.apps
  {
    RecoveriesKeepApps(d, |d.tasks|, a);
    hide RecoverExpired;
  }

  lemma StepKeepsApps(w: World, e: Event, a: AppId)
    requires a in w.db.apps
    ensures a in Step(w, e).db.apps
  {
    if OfWorker(e) {
      hide WorkerStep;
      if e.worker in w.workers {
        WorkerStepKeepsApps(w, e.worker, w.workers[e.worker], e, a);
      }
    } else {
      hide Recover, RecoverSubmits, Claim;
      match e
      case Controls(paused, stopped) =>
        RecoveriesKeepApps(w.db.(paused := paused, stopped := stopped), |w.db.tasks|, a);
      case Cancels(t) =>
        if t < |w.db.tasks| {
          RecoverKeepsApps(w.db, t, true, a);
        }
      case Claims(id, kinds, leaseMs, concurrency) => ClaimKeepsApps(w.db, id, kinds, leaseMs, concurrency, a);
      case _ =>
    }
  }

  lemma WorkerStepKeepsApps(w: World, id: WorkerId, p: Phase, e: Event, a: AppId)
    requires a in w.db.apps
    ensures a in WorkerStep(w, id, p, e).db.apps
  {
    hide Recover;
    if e.Fails? && p.lease.task < |w.db.tasks| {
      RecoverKeepsApps(w.db, p.lease.task, false, a);
    }
  }

  // ---- Recovery ----

  function Recovered(d: Db): Db {
    RecoverExpired(d, |d.tasks|)
  }

  lemma RecoverTouchesOne(d: Db, u: nat)
    requires u < |d.tasks|
    ensures var e := Recover(d, u, false);
            e.now == d.now && |d.tasks| <= |e.tasks| && forall i :: 0 <= i < |d.tasks| && i != u ==>
                e.tasks[i] == d.tasks[i]
  {
  }

  /**
   Recovering tasks `m` up to `n`, none of them leased for `a`,
   leaves its rows and the tasks outside that range alone.
   */
  lemma {:induction false} RecoverRange(d: Db, m: nat, n: nat, a: AppId)
    requires m <= n <= |d.tasks| && a in RecoverExpired(d, m).apps
    requires forall u :: m <= u < n && d.tasks[u].state == Leased ==> d.tasks[u].app != Option.Some(a)
    ensures var x, y := RecoverExpired(d, m), RecoverExpired(d, n);
            && SameRows(x, y, a) && y.now == x.now && |x.tasks| <= |y.tasks|
            && forall i :: 0 <= i < |x.tasks| && !(m <= i < n) ==> y.tasks[i] == x.tasks[i]
  {
    hide Recover, SameRows;
    if m == n {
      SameRowsRefl(RecoverExpired(d, m), a);
    } else {
      RecoverRange(d, m, n - 1, a);
      var y := RecoverExpired(d, n - 1);
      SameRowsHas(RecoverExpired(d, m), y, a);
      RecoveriesAreQuiet(d, n - 1);
      assert Kept(d.tasks[n - 1], y.tasks[n - 1]);
      if y.tasks[n - 1].state == Leased {
        RecoverElsewhere(y, n - 1, false, a);
        RecoverTouchesOne(y, n - 1);
        SameRowsTrans(RecoverExpired(d, m), y, Recover(y, n - 1, false), a);
      }
    }
  }

  lemma SameRowsHas(d: Db, e: Db, a: AppId)
    requires SameRows(d, e, a)
    ensures a in d.apps && a in e.apps
  {
  }

  lemma BeforeTurn(d: Db, t: nat, a: AppId, f: nat)
    requires QueueInv(d) && Held(d, t, a, f)
    ensures var e := RecoverExpired(d, t);
            && |d.tasks| <= |e.tasks| && SameRows(d, e, a) && e.now == d.now && e.tasks[t] == d.tasks[t] && QueueInv(e)
  {
    OthersElsewhere(d, t, a, f);
    assert RecoverExpired(d, 0) == d;
    RecoverRange(d, 0, t, a);
    RecoveriesAreQuiet(d, t);
    hide RecoverExpired, SameRows;
    QuietKeepsQueue(d, RecoverExpired(d, t));
  }

  lemma OthersElsewhere(d: Db, t: nat, a: AppId, f: nat)
    requires QueueInv(d) && Held(d, t, a, f)
    ensures forall u :: 0 <= u < |d.tasks| && u != t && d.tasks[u].state == Leased ==> d.tasks[u].app != Option.Some(a)
  {
  }

  lemma NoKeyYet(e: Db, t: nat, a: AppId)
    requires QueueInv(e) && t < |e.tasks| && e.tasks[t].state == Leased
    ensures forall u :: 0 <= u < |e.tasks| ==> e.tasks[u].key != ForReconcile(a, t)
  {
    forall u | 0 <= u < |e.tasks|
      ensures e.tasks[u].key != ForReconcile(a, t)
    {
      assert KeyOk(e, u);
    }
  }

  /** The lease's turn comes with everything of it as before, and nothing of it changes after. */
  lemma OwnTurn(d: Db, t: nat, a: AppId, f: nat)
    requires QueueInv(d) && Held(d, t, a, f) && d.tasks[t].until <= d.now
    ensures var e := RecoverExpired(d, t);
            && |d.tasks| <= |e.tasks| && SameRows(d, e, a) && e.now == d.now && e.tasks[t] == d.tasks[t] && QueueInv(e)
            && var g, h := Recover(e, t, false), Recovered(d);
               && a in g.apps && SameRows(g, h, a) && |g.tasks| <= |h.tasks|
               && h.tasks[t] == g.tasks[t] && forall i :: |d.tasks| <= i < |g.tasks| ==> h.tasks[i] == g.tasks[i]
  {
    hide SameRows, Recover, QueueInv;
    BeforeTurn(d, t, a, f);
    var e := RecoverExpired(d, t);
    SameRowsHas(d, e, a);
    assert RecoverExpired(d, t + 1) == Recover(e, t, false);
    RecoverKeepsApps(e, t, false, a);
    RecoverTouchesOne(e, t);
    OthersElsewhere(d, t, a, f);
    hide RecoverExpired;
    RecoverRange(d, t + 1, |d.tasks|, a);
    assert Recovered(d) == RecoverExpired(d, |d.tasks|);
  }

  // ---- What recovery makes of the lease ----

  /** The task waits for a retry, or is dead after its last attempt. */
  ghost predicate Retried(d: Db, h: Db, t: nat) {
    && t < |d.tasks| && t < |h.tasks|
    && h.tasks[t] == d.tasks[t].(state := Again(d.tasks[t]), runAfter := d.now)
  }

  /** The submit is cancelled, its attempt and application are in doubt, and a new task reconciles it. */
  ghost predicate Doubted(d: Db, h: Db, t: nat, a: AppId, i: nat) {
    && t < |d.tasks| && t < |h.tasks| && h.tasks[t].state == Cancelled
    && a in h.apps && h.apps[a].state == Unknown && Actual(h, a, i) && h.attempts[i].state == Uncertain
    && exists r :: |d.tasks| <= r < |h.tasks| && h.tasks[r] == ReconcileTask(t, d.tasks[t], a, d.now)
  }

  ghost predicate Finished(h: Db, t: nat) {
    t < |h.tasks| && h.tasks[t].state == Completed
  }

  lemma OwnRetry(e: Db, t: nat, a: AppId, f: nat, from: Origin)
    requires (Untold(e, t, a, f, from) || exists i: nat :: Told(e, t, a, f, i) && e.attempts[i].state == Rejected)
    ensures Recover(e, t, false) == SetTask(e, t, Again(e.tasks[t]), e.now)
  {
    if Untold(e, t, a, f, from) {
      forall i: nat | i < |e.attempts|
        ensures !StoppedAt(e, t, i)
      {
        assert !Own(e, a, f, i);
      }
    }
  }

  lemma OwnFinish(e: Db, t: nat, a: AppId, f: nat, i: nat)
    requires DbInv(e) && Told(e, t, a, f, i) && e.attempts[i].state in {Blocked, Accepted}
    ensures Recover(e, t, false) == SetTask(e, t, Completed, e.tasks[t].runAfter)
  {
    if e.attempts[i].state == Blocked {
      assert StoppedAt(e, t, i);
    }
  }

  lemma OwnDoubt(e: Db, t: nat, a: AppId, f: nat, i: nat)
    requires QueueInv(e) && Told(e, t, a, f, i) && e.attempts[i].state in {Flying, Uncertain}
    ensures var g := Recover(e, t, false);
            && |g.tasks| == |e.tasks| + 1 && g.tasks[|e.tasks|] == ReconcileTask(t, e.tasks[t], a, e.now)
            && g.tasks[t].state == Cancelled && a in g.apps && g.apps[a].state == Unknown
            && |g.attempts| == |e.attempts| && g.attempts[i] == e.attempts[i].(state := Uncertain)
  {
    NoKeyYet(e, t, a);
  }

  lemma UntoldIsRetried(d: Db, t: nat, a: AppId, f: nat, from: Origin)
    requires QueueInv(d) && Untold(d, t, a, f, from) && d.tasks[t].until <= d.now
    ensures Retried(d, Recovered(d), t) && SameRows(d, Recovered(d), a)
  {
    OwnTurn(d, t, a, f);
    var e := RecoverExpired(d, t);
    hide RecoverExpired, Recover, Recovered, QueueInv;
    forall i: nat
      ensures !Own(e, a, f, i)
    {
      assert !Own(d, a, f, i);
    }
    OwnRetry(e, t, a, f, from);
    SameRowsTrans(d, e, Recover(e, t, false), a);
    SameRowsTrans(d, Recover(e, t, false), Recovered(d), a);
  }

  lemma ToldBefore(d: Db, e: Db, t: nat, a: AppId, f: nat, i: nat)
    requires Told(d, t, a, f, i) && SameRows(d, e, a) && t < |e.tasks| && e.tasks[t] == d.tasks[t]
    ensures Told(e, t, a, f, i) && e.attempts[i] == d.attempts[i]
  {
    forall j: nat
      ensures Own(e, a, f, j) <==> Own(d, a, f, j)
    {
    }
  }

  /** A recorded intent decides what recovery does. */
  lemma ToldIsSorted(d: Db, t: nat, a: AppId, f: nat, i: nat)
    requires DbInv(d) && QueueInv(d) && Told(d, t, a, f, i) && d.tasks[t].until <= d.now
    ensures match d.attempts[i].state
            case Flying => Doubted(d, Recovered(d), t, a, i)
            case Uncertain => Doubted(d, Recovered(d), t, a, i)
            case Rejected => Retried(d, Recovered(d), t) && SameRows(d, Recovered(d), a)
            case _ => Finished(Recovered(d), t) && SameRows(d, Recovered(d), a)
  {
    OwnTurn(d, t, a, f);
    var e := RecoverExpired(d, t);
    RecoverExpiredKeeps(d, t);
    hide RecoverExpired, Recover, Recovered, QueueInv, DbInv;
    ToldBefore(d, e, t, a, f, i);
    if d.attempts[i].state in {Flying, Uncertain} {
      hide Told, SameRows, Doubted;
      ToldEndsInDoubt(d, e, t, a, f, i);
    } else {
      hide Told, SameRows, Retried, Finished;
      ToldEndsAlone(d, e, t, a, f, i);
    }
  }

  lemma ToldEndsInDoubt(d: Db, e: Db, t: nat, a: AppId, f: nat, i: nat)
    requires QueueInv(e) && Told(e, t, a, f, i) && e.attempts[i].state in {Flying, Uncertain}
    requires e.now == d.now && t < |d.tasks| <= |e.tasks| && e.tasks[t] == d.tasks[t]
    requires var g, h := Recover(e, t, false), Recovered(d);
             && a in g.apps && SameRows(g, h, a) && |g.tasks| <= |h.tasks| && h.tasks[t] == g.tasks[t]
             && forall k :: |d.tasks| <= k < |g.tasks| ==> h.tasks[k] == g.tasks[k]
    ensures Doubted(d, Recovered(d), t, a, i)
  {
    hide Recover, Recovered, QueueInv, ReconcileTask;
    OwnDoubt(e, t, a, f, i);
    assert Recovered(d).tasks[|e.tasks|] == Recover(e, t, false).tasks[|e.tasks|];
  }

  lemma ToldEndsAlone(d: Db, e: Db, t: nat, a: AppId, f: nat, i: nat)
    requires DbInv(e) && Told(e, t, a, f, i) && e.attempts[i].state in {Rejected, Blocked, Accepted}
    requires SameRows(d, e, a) && e.now == d.now && t < |d.tasks| && e.tasks[t] == d.tasks[t]
    requires var g, h := Recover(e, t, false), Recovered(d);
             a in g.apps && SameRows(g, h, a) && |g.tasks| <= |h.tasks| && h.tasks[t] == g.tasks[t]
    ensures SameRows(d, Recovered(d), a)
    ensures if e.attempts[i].state == Rejected then Retried(d, Recovered(d), t) else Finished(Recovered(d), t)
  {
    hide Recover, Recovered, DbInv;
    if e.attempts[i].state == Rejected {
      OwnRetry(e, t, a, f, Origin(e.apps[a], 0));
    } else {
      OwnFinish(e, t, a, f, i);
    }
    SameRowsTrans(d, e, Recover(e, t, false), a);
    SameRowsTrans(d, Recover(e, t, false), Recovered(d), a);
  }

  ghost predicate NoIntent(d: Db, a: AppId, f: nat) {
    forall i: nat :: !Own(d, a, f, i)
  }

  /** The attempt recorded under fence `f`, in one of the given states. */
  ghost predicate OwnIn(d: Db, a: AppId, f: nat, states: set<AttemptState>) {
    exists i: nat :: Own(d, a, f, i) && d.attempts[i].state in states
  }

  /**
   Recovery, which turned `d` into `h`, made of task `t` what its lease's rows call for: a retry (or a dead task
   after the last attempt) exactly when no intent was recorded or the employer definitively rejected it,
   reconciliation exactly when the outcome is in doubt, and a completed task otherwise.
   */
  ghost predicate FollowsIntent(d: Db, h: Db, t: nat, a: AppId, f: nat) {
    && t < |h.tasks|
    && (h.tasks[t].state in {RetryWait, Dead} <==> NoIntent(d, a, f) || OwnIn(d, a, f, {Rejected}))
    && (h.tasks[t].state == Cancelled <==> OwnIn(d, a, f, {Flying, Uncertain}))
    && (h.tasks[t].state == Completed <==> OwnIn(d, a, f, {Blocked, Accepted}))
  }

  lemma StorySorts(d: Db, t: nat, a: AppId, f: nat, from: Origin)
    requires DbInv(d) && QueueInv(d) && Story(d, t, a, f, from) && d.tasks[t].until <= d.now
    ensures var h := Recovered(d);
            && FollowsIntent(d, h, t, a, f)
            && (h.tasks[t].state in {RetryWait, Dead} ==> Retried(d, h, t))
            && (h.tasks[t].state == Cancelled ==> exists i: nat :: Own(d, a, f, i) && Doubted(d, h, t, a, i))
            && (h.tasks[t].state != Cancelled ==> SameRows(d, h, a))
  {
    hide QueueInv, DbInv, SameRows, Recovered;
    if Untold(d, t, a, f, from) {
      UntoldIsRetried(d, t, a, f, from);
    } else {
      var i: nat :| Told(d, t, a, f, i);
      ToldIsSorted(d, t, a, f, i);
    }
  }

  /**
   In every run and interleaving in which no other repository moves the application, recovering an expired
   submit lease follows its intent; in doubt, attempt and application are left in doubt with a reconciliation queued.
   */
  lemma RecoveryFollowsIntent(c: Course, n: nat)
    requires IsCourse(c) && RunOut(c, n) && Undisturbed(c, n)
    ensures var d, h := c.run[n].db, Recovered(c.run[n].db);
            && FollowsIntent(d, h, c.task, c.app, c.fence)
            && (h.tasks[c.task].state in {RetryWait, Dead} ==> Retried(d, h, c.task))
            && (h.tasks[c.task].state == Cancelled ==>
                  exists i: nat :: Own(d, c.app, c.fence, i) && Doubted(d, h, c.task, c.app, i))
            && (h.tasks[c.task].state != Cancelled ==> SameRows(d, h, c.app))
  {
    RowsTellTheStory(c, n);
    RunKeepsInv(c.run, c.events, n);
    LeasesExclude(c.run, c.events, n);
    var d, from := c.run[n].db, Start(c);
    assert DbInv(d);
    hide *;
    StorySorts(d, c.task, c.app, c.fence, from);
  }
}
