/**
 Workers driving the submission transactions (apps/worker/src/main.ts, scripts/capacity-fixture.ts)
 against an employer, with a kill possible before every step: what holds in every run.
 */
module SubmissionProtocol {
  import opened Outcome
  import opened SubmissionDb

  /** One application received by the employer, and the attempt whose click sent it. */
  datatype Record = Record(app: AppId, attempt: nat)

  datatype Phase =
    | Holding(lease: Lease)                                     // task claimed
    | Observed(lease: Lease, evidence: Option<nat>)             // reconciliation: employer looked up
    | Begun(lease: Lease, handle: Handle)                       // intent recorded
    | Permitted(lease: Lease, handle: Handle, expires: int)     // dispatch authorised, expiry not yet checked
    | Pressing(lease: Lease, handle: Handle)                    // permit found unexpired; about to press the button
    | Waiting(lease: Lease, handle: Handle)                     // pressed; waiting for the response
    | Answered(lease: Lease, handle: Handle, record: nat)       // receipt page seen
    | Refused(lease: Lease, handle: Handle)                     // definitively rejected
    | Clueless(lease: Lease, handle: Handle)                    // permit expired, or no usable response
    | Acknowledged(lease: Lease)                                // outcome recorded, task not completed

  /**
   `flight` holds what was sent and has not arrived, `refused` the
   attempts whose application the employer rejected.
   */
  datatype World = World(db: Db, employer: seq<Record>, refused: set<nat>, flight: set<Record>,
                         workers: map<WorkerId, Phase>)

  datatype Event =
    | Tick(ms: nat)
    | Enqueues(task: Task)
    | Controls(paused: bool, stopped: bool)
    | Moves(app: AppId, state: AppState)
    | Cancels(id: nat)
    | Claims(worker: WorkerId, kinds: set<Kind>, leaseMs: nat, concurrency: nat)
    | Renews(worker: WorkerId, leaseMs: nat)
    | Begins(worker: WorkerId, revision: nat, permitted: bool)
    | Authorizes(worker: WorkerId, permitted: bool)
    | Aborts(worker: WorkerId)
    | Checks(worker: WorkerId)
    | Presses(worker: WorkerId)
    | Sees(worker: WorkerId, readable: bool)
    | Confirms(worker: WorkerId)
    | RecordsRejection(worker: WorkerId)
    | Observes(worker: WorkerId, visible: bool)
    | Reconciles(worker: WorkerId)
    | Completes(worker: WorkerId)
    | Fails(worker: WorkerId, retryable: bool, delay: nat)
    | Kill(worker: WorkerId)
    | Arrives(sent: Record, accepted: bool)
    | Vanishes(sent: Record)

  /** The first record the employer holds for an application, among the first `n`. */
  function RecordOf(employer: seq<Record>, a: AppId, n: nat): (r: Option<nat>)
    requires n <= |employer|
    ensures r.Some? ==> r.value < n && employer[r.value].app == a
    ensures r.None? ==> forall k :: 0 <= k < n ==> employer[k].app != a
  {
    if n == 0 then Option.None
    else
      var r := RecordOf(employer, a, n - 1);
      if r.Some? then r
      else if employer[n - 1].app == a then Option.Some(n - 1) else Option.None
  }

  /** The record an attempt led to, among the first `n`. */
  function RecordBy(employer: seq<Record>, i: nat, n: nat): (r: Option<nat>)
    requires n <= |employer|
    ensures r.Some? ==> r.value < n && employer[r.value].attempt == i
    ensures r.None? ==> forall k :: 0 <= k < n ==> employer[k].attempt != i
  {
    if n == 0 then Option.None
    else
      var r := RecordBy(employer, i, n - 1);
      if r.Some? then r
      else if employer[n - 1].attempt == i then Option.Some(n - 1) else Option.None
  }

  function Put(w: World, id: WorkerId, db: Db, phase: Phase): World {
    w.(db := db, workers := w.workers[id := phase])
  }

  function Drop(w: World, id: WorkerId, db: Db): World {
    w.(db := db, workers := w.workers - {id})
  }

  /** One step. A step that is not possible, or whose transaction throws, changes nothing. */
  function Step(w: World, e: Event): World {
    match e
    case Tick(ms) => w.(db := w.db.(now := w.db.now + ms))
    case Enqueues(task) => if task.key.Chosen? then w.(db := Enqueue(w.db, task)) else w
    case Controls(paused, stopped) => w.(db := SetControl(w.db, paused, stopped))
    case Moves(a, state) => w.(db := MoveApplication(w.db, a, state))
    case Cancels(t) =>
      (match CancelTask(w.db, t) case Some(db) => w.(db := db) case None => w)
    case Claims(id, kinds, leaseMs, concurrency) =>
      if id in w.workers then w
      else
        var (db, lease) := Claim(w.db, id, kinds, leaseMs, concurrency);
        if lease.Some? then Put(w, id, db, Holding(lease.value)) else w.(db := db)
    case Kill(id) => w.(workers := w.workers - {id})
    case Arrives(sent, accepted) =>
      if sent !in w.flight then w
      else if accepted then w.(flight := w.flight - {sent}, employer := w.employer + [sent])
      else w.(flight := w.flight - {sent}, refused := w.refused + {sent.attempt})
    case Vanishes(sent) => w.(flight := w.flight - {sent})
    case _ =>
      if e.worker !in w.workers then w else WorkerStep(w, e.worker, w.workers[e.worker], e)
  }

  function WorkerStep(w: World, id: WorkerId, p: Phase, e: Event): World {
    match e
    case Renews(_, leaseMs) =>
      (match Renew(w.db, p.lease, leaseMs) case Some(db) => w.(db := db) case None => w)
    case Begins(_, revision, permitted) =>
      if !p.Holding? then w
      else (match Begin(w.db, p.lease, revision, permitted)
            case Some(r) => Put(w, id, r.0, Begun(p.lease, r.1)) case None => w)
    case Authorizes(_, permitted) =>
      if !p.Begun? then w
      else (match AuthorizeDispatch(w.db, p.lease, p.handle, permitted)
            case Some(db) => Put(w, id, db, Permitted(p.lease, p.handle, w.db.now + 10000)) case None => w)
    case Aborts(_) =>
      if !p.Begun? then w
      else (match AbortBeforeDispatch(w.db, p.lease, p.handle)
            case Some(db) => Put(w, id, db, Acknowledged(p.lease)) case None => w)
    case Checks(_) =>
      if !p.Permitted? then w
      else Put(w, id, w.db, if p.expires <= w.db.now then Clueless(p.lease, p.handle) else Pressing(p.lease, p.handle))
    case Presses(_) =>
      if !p.Pressing? then w
      else Put(w.(flight := w.flight + {Record(p.handle.app, p.handle.attempt)}), id, w.db, Waiting(p.lease, p.handle))
    case Sees(_, readable) =>
      if !p.Waiting? then w
      else if !readable then Put(w, id, w.db, Clueless(p.lease, p.handle))
      else
        var record := RecordBy(w.employer, p.handle.attempt, |w.employer|);
        if record.Some? then Put(w, id, w.db, Answered(p.lease, p.handle, record.value))
        else if p.handle.attempt in w.refused then Put(w, id, w.db, Refused(p.lease, p.handle))
        else w
    case Confirms(_) =>
      if !p.Answered? then w
      else (match ConfirmReceipt(w.db, p.lease, p.handle, p.record)
            case Some(db) => Put(w, id, db, Acknowledged(p.lease)) case None => w)
    case RecordsRejection(_) =>
      if !p.Refused? then w
      else (match RecordRejection(w.db, p.lease, p.handle)
            case Some(db) => Put(w, id, db, Acknowledged(p.lease)) case None => w)
    case Observes(_, visible) =>
      if !p.Holding? || p.lease.task >= |w.db.tasks| || w.db.tasks[p.lease.task].app.None? then w
      else
        var a := w.db.tasks[p.lease.task].app.value;
        Put(w, id, w.db, Observed(p.lease, if visible then RecordOf(w.employer, a, |w.employer|) else Option.None))
    case Reconciles(_) =>
      if !p.Observed? then w
      else (match ReconcileReceipt(w.db, p.lease, p.evidence)
            case Some(db) => Put(w, id, db, Acknowledged(p.lease)) case None => w)
    case Completes(_) =>
      (match Complete(w.db, p.lease) case Some(db) => Drop(w, id, db) case None => w)
    case Fails(_, retryable, delay) =>
      (match Fail(w.db, p.lease, retryable, delay) case Some(db) => Drop(w, id, db) case None => Drop(w, id, w.db))
    case _ => w
  }

  // ---- What every transaction keeps ----

  /**
   Rows are only ever added; what identifies a row never changes; a dispatch is never
   undone; what became of an attempt stays, and doubt ends in acceptance only.
   */
  ghost predicate Extends(d: Db, e: Db) {
    && |d.tasks| <= |e.tasks|
    && (forall t :: 0 <= t < |d.tasks| ==> e.tasks[t].app == d.tasks[t].app)
    && d.intents <= e.intents && |d.attempts| <= |e.attempts|
    && (forall i :: 0 <= i < |d.attempts| ==> Continues(d.attempts[i], e.attempts[i]))
  }

  ghost predicate Continues(x: Attempt, y: Attempt) {
    && y.app == x.app && y.fence == x.fence && y.intent == x.intent
    && (x.dispatched ==> y.dispatched)
    && (x.state != Flying ==> y.dispatched == x.dispatched)
    && (x.state != Flying ==> y.state == x.state || (x.state == Uncertain && y.state == Accepted))
  }

  /** An intent and its attempt are written together and name the same lease. */
  ghost predicate Paired(db: Db) {
    && |db.intents| == |db.attempts|
    && forall i :: 0 <= i < |db.attempts| ==>
         db.attempts[i].intent == i && db.intents[i].app == db.attempts[i].app
           && db.intents[i].fence == db.attempts[i].fence
  }

  /** Before the latest attempt of an application there are only attempts blocked before dispatch. */
  ghost predicate OneFinalAction(db: Db) {
    && (forall i, j :: 0 <= i < j < |db.attempts| && db.attempts[i].app == db.attempts[j].app ==>
         db.attempts[i].state == Blocked)
    && (forall i :: 0 <= i < |db.attempts| && db.attempts[i].state == Blocked ==> !db.attempts[i].dispatched)
  }

  /** Receipts and accepted attempts match one to one, and a confirmed application has one. */
  ghost predicate Receipted(db: Db) {
    && (forall r :: 0 <= r < |db.receipts| ==>
          && db.receipts[r].attempt < |db.attempts|
          && db.attempts[db.receipts[r].attempt].state == Accepted
          && db.attempts[db.receipts[r].attempt].app == db.receipts[r].app)
    && (forall r, q :: 0 <= r < q < |db.receipts| ==> db.receipts[r].attempt != db.receipts[q].attempt)
    && (forall a :: a in db.apps && db.apps[a].state == Confirmed ==> HasAccepted(db, a))
    && (forall i :: 0 <= i < |db.attempts| && db.attempts[i].state == Accepted ==> HasReceipt(db, i))
  }

  ghost predicate HasAccepted(db: Db, a: AppId) {
    exists i :: 0 <= i < |db.attempts| && db.attempts[i].app == a && db.attempts[i].state == Accepted
  }

  ghost predicate HasReceipt(db: Db, i: nat) {
    exists r :: 0 <= r < |db.receipts| && db.receipts[r].attempt == i
  }

  ghost predicate DbInv(db: Db) {
    Paired(db) && OneFinalAction(db) && Receipted(db)
  }

  lemma ExtendsRefl(d: Db)
    ensures Extends(d, d)
  {
  }

  lemma ExtendsTrans(d: Db, e: Db, f: Db)
    requires Extends(d, e) && Extends(e, f)
    ensures Extends(d, f)
  {
    forall i | 0 <= i < |d.attempts|
      ensures Continues(d.attempts[i], f.attempts[i])
    {
      assert Continues(d.attempts[i], e.attempts[i]) && Continues(e.attempts[i], f.attempts[i]);
    }
  }

  /** `e` differs from `d` in no attempt, intent or receipt and confirms no application. */
  ghost predicate SameActions(d: Db, e: Db) {
    && e.intents == d.intents && e.attempts == d.attempts && e.receipts == d.receipts
    && |d.tasks| <= |e.tasks|
    && (forall t :: 0 <= t < |d.tasks| ==> e.tasks[t].app == d.tasks[t].app)
    && (forall a :: a in e.apps && e.apps[a].state == Confirmed ==> a in d.apps && d.apps[a].state == Confirmed)
  }

  ghost predicate Keeps(d: Db, e: Db) {
    DbInv(e) && Extends(d, e)
  }

  lemma SameActionsKeep(d: Db, e: Db)
    requires DbInv(d) && SameActions(d, e)
    ensures Keeps(d, e)
  {
    forall a | a in e.apps && e.apps[a].state == Confirmed
      ensures HasAccepted(e, a)
    {
      assert HasAccepted(d, a);
    }
    forall i | 0 <= i < |e.attempts| && e.attempts[i].state == Accepted
      ensures HasReceipt(e, i)
    {
      assert HasReceipt(d, i);
    }
  }

  lemma KeepsTrans(d: Db, e: Db, f: Db)
    requires Keeps(d, e) && Keeps(e, f)
    ensures Keeps(d, f)
  {
    ExtendsTrans(d, e, f);
  }

  /** Some flying attempts become uncertain; the application is no longer in flight. */
  lemma GroundedKeeps(d: Db, a: AppId)
    requires DbInv(d) && a in d.apps && d.apps[a].state == InFlight
    ensures Keeps(d, SetApp(d, a, Unknown, 1).(attempts := Grounded(d.attempts, a)))
  {
    var e := SetApp(d, a, Unknown, 1).(attempts := Grounded(d.attempts, a));
    forall b | b in e.apps && e.apps[b].state == Confirmed
      ensures HasAccepted(e, b)
    {
      assert HasAccepted(d, b);
      var i :| 0 <= i < |d.attempts| && d.attempts[i].app == b && d.attempts[i].state == Accepted;
      assert e.attempts[i] == d.attempts[i];
    }
    forall i | 0 <= i < |e.attempts| && e.attempts[i].state == Accepted
      ensures HasReceipt(e, i)
    {
      assert HasReceipt(d, i);
    }
  }

  lemma EnqueueKeeps(d: Db, task: Task)
    requires DbInv(d)
    ensures Keeps(d, Enqueue(d, task))
  {
    SameActionsKeep(d, Enqueue(d, task));
  }

  lemma SetTaskKeeps(d: Db, t: nat, state: TaskState, runAfter: int)
    requires DbInv(d) && t < |d.tasks|
    ensures Keeps(d, SetTask(d, t, state, runAfter))
  {
    SameActionsKeep(d, SetTask(d, t, state, runAfter));
  }

  lemma RecoverUncertainKeeps(d: Db, t: nat, cancelled: bool)
    requires DbInv(d) && t < |d.tasks|
    requires d.tasks[t].kind == Submit && HasApp(d, t) && Uncertainty(d.apps[d.tasks[t].app.value].state)
    ensures Keeps(d, Recover(d, t, cancelled))
  {
    var task := d.tasks[t];
    var a := task.app.value;
    var marked := if d.apps[a].state == InFlight then SetApp(d, a, Unknown, 1).(attempts := Grounded(d.attempts, a))
      else d;
    assert Keeps(d, marked) by {
      ExtendsRefl(d);
      if d.apps[a].state == InFlight {
        GroundedKeeps(d, a);
      }
    }
    var queued := Enqueue(marked, ReconcileTask(t, task, a, d.now));
    EnqueueKeeps(marked, ReconcileTask(t, task, a, d.now));
    SetTaskKeeps(queued, t, Cancelled, task.runAfter);
    KeepsTrans(d, marked, queued);
    KeepsTrans(d, queued, SetTask(queued, t, Cancelled, task.runAfter));
  }

  lemma RecoverKeeps(d: Db, t: nat, cancelled: bool)
    requires DbInv(d) && t < |d.tasks|
    ensures Keeps(d, Recover(d, t, cancelled))
  {
    var task := d.tasks[t];
    if task.kind == Submit && HasApp(d, t) && Uncertainty(d.apps[task.app.value].state) {
      RecoverUncertainKeeps(d, t, cancelled);
    } else {
      SetTaskKeeps(d, t, Completed, task.runAfter);
      SetTaskKeeps(d, t, if cancelled then Cancelled else Again(task), d.now);
    }
  }

  lemma {:induction false} RecoverExpiredKeeps(d: Db, n: nat)
    requires DbInv(d) && n <= |d.tasks|
    ensures Keeps(d, RecoverExpired(d, n))
  {
    hide Recover;
    if n == 0 {
      ExtendsRefl(d);
    } else {
      RecoverExpiredKeeps(d, n - 1);
      RecoverAfter(d, RecoverExpired(d, n - 1), n - 1, false);
    }
  }

  lemma {:induction false} RecoverSubmitsKeeps(d: Db, n: nat)
    requires DbInv(d) && n <= |d.tasks|
    ensures Keeps(d, RecoverSubmits(d, n))
  {
    hide Recover;
    if n == 0 {
      ExtendsRefl(d);
    } else {
      RecoverSubmitsKeeps(d, n - 1);
      RecoverAfter(d, RecoverSubmits(d, n - 1), n - 1, true);
    }
  }

  lemma RecoverAfter(d: Db, e: Db, t: nat, cancelled: bool)
    requires Keeps(d, e) && t < |e.tasks|
    ensures Keeps(d, Recover(e, t, cancelled))
  {
    RecoverKeeps(e, t, cancelled);
    KeepsTrans(d, e, Recover(e, t, cancelled));
  }

  lemma ClaimKeeps(d: Db, worker: WorkerId, kinds: set<Kind>, leaseMs: nat, concurrency: nat)
    requires DbInv(d)
    ensures Keeps(d, Claim(d, worker, kinds, leaseMs, concurrency).0)
    ensures var lease := Claim(d, worker, kinds, leaseMs, concurrency).1;
            lease.Some? ==> lease.value.task < |Claim(d, worker, kinds, leaseMs, concurrency).0.tasks|
  {
    ExtendsRefl(d);
    RecoverExpiredKeeps(d, |d.tasks|);
    var e := RecoverExpired(d, |d.tasks|);
    var f := Claim(d, worker, kinds, leaseMs, concurrency).0;
    if f != d && f != e {
      SameActionsKeep(e, f);
      KeepsTrans(d, e, f);
    }
  }

  /**
   One intent and one undispatched attempt bound to it are added, and
   every earlier attempt of the application was blocked.
   */
  lemma BeginKeeps(d: Db, l: Lease, revision: nat, permitted: bool)
    requires DbInv(d) && Begin(d, l, revision, permitted).Some?
    ensures var (e, h) := Begin(d, l, revision, permitted).value;
            && Keeps(d, e)
            && h.attempt < |e.attempts| && e.attempts[h.attempt].app == h.app && !e.attempts[h.attempt].dispatched
            && h.attempt == |d.attempts| == |e.attempts| - 1 && |e.intents| == |d.intents| + 1
            && e.attempts[h.attempt].intent == |d.intents| && e.intents[|d.intents|] == Intent(h.app, l.task, l.fence)
            && forall i :: 0 <= i < |d.attempts| && d.attempts[i].app == h.app ==>
                 d.attempts[i].state == Blocked && !d.attempts[i].dispatched
  {
    var (e, h) := Begin(d, l, revision, permitted).value;
    var n := |d.attempts|;
    forall i | 0 <= i < n && d.attempts[i].app == h.app
      ensures d.attempts[i].state == Blocked
    {
      assert !Counts(d.attempts[i]);
    }
    forall a | a in e.apps && e.apps[a].state == Confirmed
      ensures HasAccepted(e, a)
    {
      assert HasAccepted(d, a);
      var i :| 0 <= i < n && d.attempts[i].app == a && d.attempts[i].state == Accepted;
      assert e.attempts[i] == d.attempts[i];
    }
    forall i | 0 <= i < |e.attempts| && e.attempts[i].state == Accepted
      ensures HasReceipt(e, i)
    {
      assert HasReceipt(d, i);
    }
  }

  /** One flying or uncertain attempt changes without becoming accepted. */
  lemma AttemptChangeKeeps(d: Db, e: Db, i: nat, x: Attempt)
    requires DbInv(d) && i < |d.attempts| && d.attempts[i].state == Flying
    requires x.app == d.attempts[i].app && x.intent == d.attempts[i].intent && x.fence == d.attempts[i].fence
    requires d.attempts[i].dispatched ==> x.dispatched
    requires x.state != Accepted && (x.state == Blocked ==> !x.dispatched)
    requires e.intents == d.intents && e.receipts == d.receipts && e.tasks == d.tasks
             && e.attempts == d.attempts[i := x]
    requires forall a :: a in e.apps && e.apps[a].state == Confirmed ==> a in d.apps && d.apps[a].state == Confirmed
    ensures Keeps(d, e)
  {
    forall a | a in e.apps && e.apps[a].state == Confirmed
      ensures HasAccepted(e, a)
    {
      assert HasAccepted(d, a);
      var k :| 0 <= k < |d.attempts| && d.attempts[k].app == a && d.attempts[k].state == Accepted;
      assert e.attempts[k] == d.attempts[k];
    }
    forall k | 0 <= k < |e.attempts| && e.attempts[k].state == Accepted
      ensures HasReceipt(e, k)
    {
      assert HasReceipt(d, k);
    }
  }

  /** Attempt `i` of application `a` is accepted with a new receipt. */
  ghost predicate Accepts(d: Db, e: Db, a: AppId, i: nat, record: nat) {
    && i < |d.attempts| && d.attempts[i].app == a && d.attempts[i].state in {Flying, Uncertain}
    && e.attempts == d.attempts[i := d.attempts[i].(state := Accepted)] && e.intents == d.intents && e.tasks == d.tasks
    && e.receipts == d.receipts + [Receipt(a, i, record)]
    && (forall b :: b in e.apps && b != a && e.apps[b].state == Confirmed ==>
         b in d.apps && d.apps[b].state == Confirmed)
  }

  lemma AcceptanceJustified(d: Db, e: Db, a: AppId, i: nat, record: nat, b: AppId)
    requires DbInv(d) && Accepts(d, e, a, i, record) && b in e.apps && e.apps[b].state == Confirmed
    ensures HasAccepted(e, b)
  {
    if b == a {
      assert e.attempts[i].app == a && e.attempts[i].state == Accepted;
    } else {
      assert HasAccepted(d, b);
      var k :| 0 <= k < |d.attempts| && d.attempts[k].app == b && d.attempts[k].state == Accepted;
      assert e.attempts[k] == d.attempts[k];
    }
  }

  lemma AcceptanceReceipted(d: Db, e: Db, a: AppId, i: nat, record: nat, k: nat)
    requires DbInv(d) && Accepts(d, e, a, i, record) && k < |e.attempts| && e.attempts[k].state == Accepted
    ensures HasReceipt(e, k)
  {
    if k == i {
      assert e.receipts[|d.receipts|].attempt == i;
    } else {
      assert HasReceipt(d, k);
      var r :| 0 <= r < |d.receipts| && d.receipts[r].attempt == k;
      assert e.receipts[r] == d.receipts[r];
    }
  }

  lemma AcceptanceKeeps(d: Db, e: Db, a: AppId, i: nat, record: nat)
    requires DbInv(d) && Accepts(d, e, a, i, record)
    ensures Keeps(d, e)
  {
    forall b | b in e.apps && e.apps[b].state == Confirmed
      ensures HasAccepted(e, b)
    {
      AcceptanceJustified(d, e, a, i, record, b);
    }
    forall k | 0 <= k < |e.attempts| && e.attempts[k].state == Accepted
      ensures HasReceipt(e, k)
    {
      AcceptanceReceipted(d, e, a, i, record, k);
    }
    assert OneFinalAction(e);
  }

  // ---- What every step keeps ----

  ghost predicate EmployerOk(w: World) {
    && (forall k :: 0 <= k < |w.employer| ==>
          && w.employer[k].attempt < |w.db.attempts|
          && w.db.attempts[w.employer[k].attempt].app == w.employer[k].app
          && w.db.attempts[w.employer[k].attempt].dispatched)
    && (forall k, m :: 0 <= k < m < |w.employer| ==> w.employer[k].attempt != w.employer[m].attempt)
    && (forall i :: i in w.refused ==> i < |w.db.attempts| && w.db.attempts[i].dispatched && Unsent(w, i))
    && (forall r :: r in w.flight ==> FlightOk(w, r))
  }

  /** What is on its way was sent by a dispatched attempt of its application, has not arrived and was not refused. */
  ghost predicate FlightOk(w: World, r: Record) {
    && r.attempt < |w.db.attempts| && w.db.attempts[r.attempt].app == r.app && w.db.attempts[r.attempt].dispatched
    && Unsent(w, r.attempt) && r.attempt !in w.refused
  }

  /** Attempt `i` was never pressed. */
  ghost predicate Unpressed(w: World, i: nat) {
    Unsent(w, i) && i !in w.refused && forall r :: r in w.flight ==> r.attempt != i
  }

  ghost predicate ReceiptsTrue(w: World) {
    forall r :: 0 <= r < |w.db.receipts| ==> RecordFor(w, w.db.receipts[r].record, w.db.receipts[r].app)
  }

  ghost predicate RecordFor(w: World, record: nat, a: AppId) {
    record < |w.employer| && w.employer[record].app == a
  }

  ghost predicate HandleOk(db: Db, h: Handle) {
    h.attempt < |db.attempts| && db.attempts[h.attempt].app == h.app
  }

  predicate HasHandle(p: Phase) {
    p.Begun? || p.Permitted? || p.Pressing? || p.Waiting? || p.Answered? || p.Refused? || p.Clueless?
  }

  ghost predicate PhaseOk(w: World, p: Phase) {
    && p.lease.task < |w.db.tasks|
    && (HasHandle(p) ==> HandleOk(w.db, p.handle))
    && (p.Permitted? || p.Pressing? ==> w.db.attempts[p.handle.attempt].dispatched && Unpressed(w, p.handle.attempt))
    && (p.Answered? ==> RecordFor(w, p.record, p.handle.app))
    && (p.Observed? && p.evidence.Some? ==>
          w.db.tasks[p.lease.task].app.Some? && RecordFor(w, p.evidence.value, w.db.tasks[p.lease.task].app.value))
  }

  /** No record at the employer stems from attempt `i`. */
  ghost predicate Unsent(w: World, i: nat) {
    forall k :: 0 <= k < |w.employer| ==> w.employer[k].attempt != i
  }

  /** A worker that may still press the button for attempt `i`. */
  ghost predicate PermitFor(w: World, id: WorkerId, i: nat) {
    id in w.workers && (w.workers[id].Permitted? || w.workers[id].Pressing?) && w.workers[id].handle.attempt == i
  }

  ghost predicate WorkersOk(w: World) {
    && (forall id :: id in w.workers ==> PhaseOk(w, w.workers[id]))
    && (forall id, other, i :: PermitFor(w, id, i) && PermitFor(w, other, i) ==> id == other)
  }

  ghost predicate WorldInv(w: World) {
    DbInv(w.db) && EmployerOk(w) && ReceiptsTrue(w) && WorkersOk(w)
  }

  lemma PhaseSurvives(w: World, e: Db, p: Phase)
    requires PhaseOk(w, p) && Extends(w.db, e)
    ensures PhaseOk(w.(db := e), p)
  {
    assert p.lease.task < |w.db.tasks|;
    if HasHandle(p) {
      assert Continues(w.db.attempts[p.handle.attempt], e.attempts[p.handle.attempt]);
    }
  }

  lemma EmployerSurvives(w: World, e: Db)
    requires EmployerOk(w) && Extends(w.db, e)
    ensures EmployerOk(w.(db := e))
  {
    forall k | 0 <= k < |w.employer|
      ensures e.attempts[w.employer[k].attempt].app == w.employer[k].app && e.attempts[w.employer[k].attempt].dispatched
    {
      assert Continues(w.db.attempts[w.employer[k].attempt], e.attempts[w.employer[k].attempt]);
    }
    forall i | i in w.refused
      ensures e.attempts[i].dispatched
    {
      assert Continues(w.db.attempts[i], e.attempts[i]);
    }
    forall r | r in w.flight
      ensures FlightOk(w.(db := e), r)
    {
      assert FlightOk(w, r);
      assert Continues(w.db.attempts[r.attempt], e.attempts[r.attempt]);
    }
  }

  /** A transaction keeps the world sound when every receipt it leaves is true. */
  lemma DbChange(w: World, e: Db)
    requires WorldInv(w) && Keeps(w.db, e) && ReceiptsTrue(w.(db := e))
    ensures WorldInv(w.(db := e))
  {
    EmployerSurvives(w, e);
    var v := w.(db := e);
    forall id | id in v.workers
      ensures PhaseOk(v, v.workers[id])
    {
      PhaseSurvives(w, e, w.workers[id]);
    }
    forall id, other, i | PermitFor(v, id, i) && PermitFor(v, other, i)
      ensures id == other
    {
      assert PermitFor(w, id, i) && PermitFor(w, other, i);
    }
  }

  lemma SameReceiptsTrue(w: World, e: Db)
    requires ReceiptsTrue(w) && e.receipts == w.db.receipts
    ensures ReceiptsTrue(w.(db := e))
  {
    forall r | 0 <= r < |e.receipts|
      ensures RecordFor(w.(db := e), e.receipts[r].record, e.receipts[r].app)
    {
      assert RecordFor(w, w.db.receipts[r].record, w.db.receipts[r].app);
    }
  }

  lemma NewReceiptTrue(w: World, e: Db, receipt: Receipt)
    requires ReceiptsTrue(w) && e.receipts == w.db.receipts + [receipt] && RecordFor(w, receipt.record, receipt.app)
    ensures ReceiptsTrue(w.(db := e))
  {
    forall r | 0 <= r < |e.receipts|
      ensures RecordFor(w.(db := e), e.receipts[r].record, e.receipts[r].app)
    {
      if r < |w.db.receipts| {
        assert RecordFor(w, w.db.receipts[r].record, w.db.receipts[r].app);
      }
    }
  }

  lemma PhaseChange(w: World, id: WorkerId, p: Phase)
    requires WorldInv(w) && PhaseOk(w, p)
    requires p.Permitted? || p.Pressing? ==> forall other :: other != id ==> !PermitFor(w, other, p.handle.attempt)
    ensures WorldInv(w.(workers := w.workers[id := p]))
  {
    var v := w.(workers := w.workers[id := p]);
    forall other | other in v.workers
      ensures PhaseOk(v, v.workers[other])
    {
      assert other != id ==> PhaseOk(w, w.workers[other]);
    }
    forall x, y, i | PermitFor(v, x, i) && PermitFor(v, y, i)
      ensures x == y
    {
      assert x != id ==> PermitFor(w, x, i);
      assert y != id ==> PermitFor(w, y, i);
    }
    forall r | 0 <= r < |v.db.receipts|
      ensures RecordFor(v, v.db.receipts[r].record, v.db.receipts[r].app)
    {
      assert RecordFor(w, w.db.receipts[r].record, w.db.receipts[r].app);
    }
  }

  lemma WorkerLeaves(w: World, id: WorkerId)
    requires WorldInv(w)
    ensures WorldInv(w.(workers := w.workers - {id}))
  {
    var v := w.(workers := w.workers - {id});
    forall other | other in v.workers
      ensures PhaseOk(v, v.workers[other])
    {
      assert PhaseOk(w, w.workers[other]);
    }
    forall x, y, i | PermitFor(v, x, i) && PermitFor(v, y, i)
      ensures x == y
    {
      assert PermitFor(w, x, i) && PermitFor(w, y, i);
    }
    forall r | 0 <= r < |v.db.receipts|
      ensures RecordFor(v, v.db.receipts[r].record, v.db.receipts[r].app)
    {
      assert RecordFor(w, w.db.receipts[r].record, w.db.receipts[r].app);
    }
  }

  /** What happens on the way and at the employer keeps the workers and receipts sound. */
  lemma DeliveryKeeps(w: World, v: World)
    requires WorldInv(w) && v.db == w.db && v.workers == w.workers && w.employer <= v.employer && EmployerOk(v)
    requires forall i :: Unpressed(w, i) ==> Unpressed(v, i)
    ensures WorldInv(v)
  {
    forall id | id in v.workers
      ensures PhaseOk(v, v.workers[id])
    {
      assert PhaseOk(w, w.workers[id]);
    }
    forall x, y, i | PermitFor(v, x, i) && PermitFor(v, y, i)
      ensures x == y
    {
      assert PermitFor(w, x, i) && PermitFor(w, y, i);
    }
    forall r | 0 <= r < |v.db.receipts|
      ensures RecordFor(v, v.db.receipts[r].record, v.db.receipts[r].app)
    {
      assert RecordFor(w, w.db.receipts[r].record, w.db.receipts[r].app);
    }
  }

  /** A transaction that leaves the receipts alone, after which worker `id` is in phase `p`. */
  lemma PutKeeps(w: World, id: WorkerId, e: Db, p: Phase)
    requires WorldInv(w) && Keeps(w.db, e) && e.receipts == w.db.receipts
    requires PhaseOk(w.(db := e), p) && !p.Permitted? && !p.Pressing?
    ensures WorldInv(Put(w, id, e, p))
  {
    SameReceiptsTrue(w, e);
    DbChange(w, e);
    PhaseChange(w.(db := e), id, p);
  }

  lemma AcceptancePut(w: World, id: WorkerId, e: Db, p: Phase, receipt: Receipt)
    requires WorldInv(w) && Keeps(w.db, e) && e.receipts == w.db.receipts + [receipt]
    requires RecordFor(w, receipt.record, receipt.app)
    requires PhaseOk(w.(db := e), p) && !p.Permitted? && !p.Pressing?
    ensures WorldInv(Put(w, id, e, p))
  {
    NewReceiptTrue(w, e, receipt);
    DbChange(w, e);
    PhaseChange(w.(db := e), id, p);
  }

  lemma DropKeeps(w: World, id: WorkerId, e: Db)
    requires WorldInv(w) && Keeps(w.db, e) && e.receipts == w.db.receipts
    ensures WorldInv(Drop(w, id, e))
  {
    SameReceiptsTrue(w, e);
    DbChange(w, e);
    WorkerLeaves(w.(db := e), id);
  }

  lemma DbOnly(w: World, e: Db)
    requires WorldInv(w) && Keeps(w.db, e) && e.receipts == w.db.receipts
    ensures WorldInv(w.(db := e))
  {
    SameReceiptsTrue(w, e);
    DbChange(w, e);
  }

  lemma RecoveryAddsNoReceipt(d: Db, t: nat, cancelled: bool)
    requires t < |d.tasks|
    ensures Recover(d, t, cancelled).receipts == d.receipts
  {
  }

  lemma {:induction false} RecoveriesAddNoReceipt(d: Db, n: nat)
    requires n <= |d.tasks|
    ensures RecoverExpired(d, n).receipts == d.receipts
    ensures RecoverSubmits(d, n).receipts == d.receipts
  {
    hide Recover;
    if n > 0 {
      RecoveriesAddNoReceipt(d, n - 1);
      RecoveryAddsNoReceipt(RecoverExpired(d, n - 1), n - 1, false);
      RecoveryAddsNoReceipt(RecoverSubmits(d, n - 1), n - 1, true);
    }
  }

  /** A sound step: the invariant holds after it, rows only grow and the employer forgets nothing. */
  ghost predicate Progress(w: World, v: World) {
    WorldInv(v) && Extends(w.db, v.db) && w.employer <= v.employer
  }

  lemma ClaimStep(w: World, id: WorkerId, kinds: set<Kind>, leaseMs: nat, concurrency: nat)
    requires WorldInv(w)
    ensures Progress(w, Step(w, Claims(id, kinds, leaseMs, concurrency)))
  {
    ExtendsRefl(w.db);
    if id !in w.workers {
      var (e, lease) := Claim(w.db, id, kinds, leaseMs, concurrency);
      ClaimKeeps(w.db, id, kinds, leaseMs, concurrency);
      RecoveriesAddNoReceipt(w.db, |w.db.tasks|);
      if lease.Some? {
        PutKeeps(w, id, e, Holding(lease.value));
      } else {
        DbOnly(w, e);
      }
    }
  }

  lemma ControlStep(w: World, paused: bool, stopped: bool)
    requires WorldInv(w)
    ensures Progress(w, Step(w, Controls(paused, stopped)))
  {
    ExtendsRefl(w.db);
    var d := w.db.(paused := paused, stopped := stopped);
    SameActionsKeep(w.db, d);
    if paused || stopped {
      RecoverSubmitsKeeps(d, |d.tasks|);
      RecoveriesAddNoReceipt(d, |d.tasks|);
      KeepsTrans(w.db, d, RecoverSubmits(d, |d.tasks|));
    }
    DbOnly(w, SetControl(w.db, paused, stopped));
  }

  lemma CancelStep(w: World, t: nat)
    requires WorldInv(w)
    ensures Progress(w, Step(w, Cancels(t)))
  {
    ExtendsRefl(w.db);
    if CancelTask(w.db, t).Some? && CancelTask(w.db, t).value != w.db {
      RecoverKeeps(w.db, t, true);
      RecoveryAddsNoReceipt(w.db, t, true);
      DbOnly(w, Recover(w.db, t, true));
    }
  }

  lemma BeginStep(w: World, id: WorkerId, revision: nat, permitted: bool)
    requires WorldInv(w) && id in w.workers
    ensures Progress(w, Step(w, Begins(id, revision, permitted)))
  {
    ExtendsRefl(w.db);
    var p := w.workers[id];
    if p.Holding? && Begin(w.db, p.lease, revision, permitted).Some? {
      BeginKeeps(w.db, p.lease, revision, permitted);
      var (e, h) := Begin(w.db, p.lease, revision, permitted).value;
      PutKeeps(w, id, e, Begun(p.lease, h));
    }
  }

  /** An attempt is authorised when it was not dispatched before, and never again. */
  lemma AuthorizeKeeps(d: Db, l: Lease, h: Handle, permitted: bool)
    requires DbInv(d) && AuthorizeDispatch(d, l, h, permitted).Some?
    ensures var e := AuthorizeDispatch(d, l, h, permitted).value;
            && Keeps(d, e) && e.receipts == d.receipts
            && HandleOk(d, h) && !d.attempts[h.attempt].dispatched
            && HandleOk(e, h) && e.attempts[h.attempt].dispatched
            && forall l': Lease, h': Handle, p: bool :: h'.attempt == h.attempt ==>
                 AuthorizeDispatch(e, l', h', p).None?
  {
    AttemptChangeKeeps(d, AuthorizeDispatch(d, l, h, permitted).value, h.attempt,
                       d.attempts[h.attempt].(dispatched := true));
  }

  /** Nobody can press for an attempt that was not dispatched, and nothing was sent for it. */
  lemma UndispatchedIsUnpressed(w: World, i: nat)
    requires WorldInv(w) && i < |w.db.attempts| && !w.db.attempts[i].dispatched
    ensures PermitFree(w, i) && Unpressed(w, i)
  {
    forall id
      ensures !PermitFor(w, id, i)
    {
      assert id in w.workers ==> PhaseOk(w, w.workers[id]);
    }
    forall r | r in w.flight
      ensures r.attempt != i
    {
      assert FlightOk(w, r);
    }
  }

  ghost predicate PermitFree(w: World, i: nat) {
    forall id :: !PermitFor(w, id, i)
  }

  lemma AuthorizeStep(w: World, id: WorkerId, permitted: bool)
    requires WorldInv(w) && id in w.workers
    ensures Progress(w, Step(w, Authorizes(id, permitted)))
  {
    ExtendsRefl(w.db);
    hide AuthorizeDispatch;
    var p := w.workers[id];
    assert PhaseOk(w, p);
    if p.Begun? && AuthorizeDispatch(w.db, p.lease, p.handle, permitted).Some? {
      var e, i := AuthorizeDispatch(w.db, p.lease, p.handle, permitted).value, p.handle.attempt;
      assert Step(w, Authorizes(id, permitted)) == Put(w, id, e, Permitted(p.lease, p.handle, w.db.now + 10000));
      hide Step;
      AuthorizeKeeps(w.db, p.lease, p.handle, permitted);
      DbOnly(w, e);
      UndispatchedIsUnpressed(w, i);
      hide DbInv, EmployerOk, ReceiptsTrue;
      var u := w.(db := e);
      forall other
        ensures !PermitFor(u, other, i)
      {
        assert !PermitFor(w, other, i);
      }
      PhaseChange(u, id, Permitted(p.lease, p.handle, w.db.now + 10000));
    }
  }

  /** Only an undispatched attempt is blocked, and it alone. */
  lemma AbortKeeps(d: Db, l: Lease, h: Handle)
    requires DbInv(d) && AbortBeforeDispatch(d, l, h).Some?
    ensures Keeps(d, AbortBeforeDispatch(d, l, h).value)
    ensures var e := AbortBeforeDispatch(d, l, h).value;
            && h.attempt < |d.attempts| == |e.attempts| && !d.attempts[h.attempt].dispatched
            && d.attempts[h.attempt].state == Flying && e.attempts[h.attempt].state == Blocked
            && forall i :: 0 <= i < |d.attempts| && i != h.attempt ==> e.attempts[i] == d.attempts[i]
    ensures AbortBeforeDispatch(d, l, h).value.receipts == d.receipts
  {
    AttemptChangeKeeps(d, AbortBeforeDispatch(d, l, h).value, h.attempt, d.attempts[h.attempt].(state := Blocked));
  }

  lemma AbortStep(w: World, id: WorkerId)
    requires WorldInv(w) && id in w.workers
    ensures Progress(w, Step(w, Aborts(id)))
  {
    ExtendsRefl(w.db);
    hide AbortBeforeDispatch;
    var p := w.workers[id];
    if p.Begun? && AbortBeforeDispatch(w.db, p.lease, p.handle).Some? {
      AbortKeeps(w.db, p.lease, p.handle);
      PutKeeps(w, id, AbortBeforeDispatch(w.db, p.lease, p.handle).value, Acknowledged(p.lease));
    }
  }

  /** Only an unexpired permit lets a worker go on to press, and checking sends nothing. */
  lemma CheckStep(w: World, id: WorkerId)
    requires WorldInv(w) && id in w.workers
    ensures var v := Step(w, Checks(id));
            && Progress(w, v) && v.employer == w.employer && v.flight == w.flight
            && (v.workers[id].Pressing? && !w.workers[id].Pressing? ==>
                 w.workers[id].Permitted? && w.workers[id].expires > w.db.now)
  {
    ExtendsRefl(w.db);
    var p := w.workers[id];
    if p.Permitted? {
      assert PhaseOk(w, p) && PermitFor(w, id, p.handle.attempt);
      PhaseChange(w, id, if p.expires <= w.db.now then Clueless(p.lease, p.handle) else Pressing(p.lease, p.handle));
    }
  }

  /** A press sends the application of an attempt that was never pressed before. */
  lemma PressStep(w: World, id: WorkerId)
    requires WorldInv(w) && id in w.workers
    ensures var v, p := Step(w, Presses(id)), w.workers[id];
            && Progress(w, v) && v.employer == w.employer
            && (if p.Pressing? then Unpressed(w, p.handle.attempt)
                && v.flight == w.flight + {Record(p.handle.app, p.handle.attempt)}
                else v == w)
  {
    ExtendsRefl(w.db);
    var p := w.workers[id];
    if p.Pressing? {
      assert PhaseOk(w, p) && PermitFor(w, id, p.handle.attempt);
      WorkerWaits(w, id);
      var u := Put(w, id, w.db, Waiting(p.lease, p.handle));
      var v := u.(flight := u.flight + {Record(p.handle.app, p.handle.attempt)});
      PressKeeps(u, v, Record(p.handle.app, p.handle.attempt));
    }
  }

  lemma WorkerWaits(w: World, id: WorkerId)
    requires WorldInv(w) && id in w.workers && w.workers[id].Pressing?
    ensures var p := w.workers[id]; var u := Put(w, id, w.db, Waiting(p.lease, p.handle));
            WorldInv(u) && PermitFree(u, p.handle.attempt)
  {
    var p := w.workers[id];
    assert PhaseOk(w, p) && PermitFor(w, id, p.handle.attempt);
    PhaseChange(w, id, Waiting(p.lease, p.handle));
    var u := Put(w, id, w.db, Waiting(p.lease, p.handle));
    forall other
      ensures !PermitFor(u, other, p.handle.attempt)
    {
      assert PermitFor(u, other, p.handle.attempt) ==> PermitFor(w, other, p.handle.attempt);
    }
  }

  lemma PressKeeps(u: World, v: World, r: Record)
    requires WorldInv(u) && v == u.(flight := u.flight + {r}) && FlightOk(u, r) && PermitFree(u, r.attempt)
    ensures WorldInv(v)
  {
    forall id | id in v.workers
      ensures PhaseOk(v, v.workers[id])
    {
      var p := u.workers[id];
      assert PhaseOk(u, p);
      if p.Permitted? || p.Pressing? {
        assert PermitFor(u, id, p.handle.attempt);
        assert Unpressed(v, p.handle.attempt);
      }
    }
    forall x, y, i | PermitFor(v, x, i) && PermitFor(v, y, i)
      ensures x == y
    {
      assert PermitFor(u, x, i) && PermitFor(u, y, i);
    }
    forall q | q in v.flight
      ensures FlightOk(v, q)
    {
      assert FlightOk(u, q);
    }
    forall k | 0 <= k < |v.db.receipts|
      ensures RecordFor(v, v.db.receipts[k].record, v.db.receipts[k].app)
    {
      assert RecordFor(u, u.db.receipts[k].record, u.db.receipts[k].app);
    }
  }

  /** The employer gains at most what was in flight, for an attempt it has no record of. */
  lemma ArriveStep(w: World, sent: Record, accepted: bool)
    requires WorldInv(w)
    ensures var v := Step(w, Arrives(sent, accepted));
            && Progress(w, v)
            && (v.employer == w.employer
                || (sent in w.flight && Unsent(w, sent.attempt) && v.employer == w.employer + [sent]))
  {
    ExtendsRefl(w.db);
    var v := Step(w, Arrives(sent, accepted));
    if sent in w.flight {
      assert FlightOk(w, sent);
      forall r | r in v.flight
        ensures FlightOk(v, r)
      {
        SameAttemptSameRecord(w, r, sent);
      }
      DeliveryKeeps(w, v);
    }
  }

  lemma SameAttemptSameRecord(w: World, r: Record, q: Record)
    requires WorldInv(w) && r in w.flight && q in w.flight
    ensures FlightOk(w, r) && (r.attempt == q.attempt ==> r == q)
  {
    assert FlightOk(w, r) && FlightOk(w, q);
  }

  lemma VanishStep(w: World, sent: Record)
    requires WorldInv(w)
    ensures Progress(w, Step(w, Vanishes(sent)))
  {
    ExtendsRefl(w.db);
    var v := Step(w, Vanishes(sent));
    forall r | r in v.flight
      ensures FlightOk(v, r)
    {
      assert FlightOk(w, r);
    }
    DeliveryKeeps(w, v);
  }

  /** What a worker reads off the page is true: a receipt is its application's record, a rejection left none. */
  lemma SeeStep(w: World, id: WorkerId, readable: bool)
    requires WorldInv(w) && id in w.workers
    ensures var v := Step(w, Sees(id, readable));
            && Progress(w, v)
            && (w.workers[id].Waiting? && v.workers[id].Answered? ==>
                 RecordFor(w, v.workers[id].record, v.workers[id].handle.app))
            && (w.workers[id].Waiting? && v.workers[id].Refused? ==> Unsent(w, v.workers[id].handle.attempt))
  {
    ExtendsRefl(w.db);
    var p := w.workers[id];
    var v := Step(w, Sees(id, readable));
    if p.Waiting? && v != w {
      assert PhaseOk(w, p);
      var found := RecordBy(w.employer, p.handle.attempt, |w.employer|);
      if found.Some? {
        assert w.db.attempts[w.employer[found.value].attempt].app == w.employer[found.value].app;
      }
      PhaseChange(w, id, v.workers[id]);
    }
  }

  lemma ConfirmKeeps(d: Db, l: Lease, h: Handle, record: nat)
    requires DbInv(d) && ConfirmReceipt(d, l, h, record).Some?
    ensures Keeps(d, ConfirmReceipt(d, l, h, record).value)
    ensures ConfirmReceipt(d, l, h, record).value.receipts == d.receipts + [Receipt(h.app, h.attempt, record)]
  {
    AcceptanceKeeps(d, ConfirmReceipt(d, l, h, record).value, h.app, h.attempt, record);
  }

  lemma ConfirmStep(w: World, id: WorkerId)
    requires WorldInv(w) && id in w.workers
    ensures Progress(w, Step(w, Confirms(id)))
  {
    ExtendsRefl(w.db);
    hide ConfirmReceipt;
    var p := w.workers[id];
    assert PhaseOk(w, p);
    if p.Answered? && ConfirmReceipt(w.db, p.lease, p.handle, p.record).Some? {
      ConfirmKeeps(w.db, p.lease, p.handle, p.record);
      AcceptancePut(w, id, ConfirmReceipt(w.db, p.lease, p.handle, p.record).value, Acknowledged(p.lease),
                    Receipt(p.handle.app, p.handle.attempt, p.record));
    }
  }

  lemma RejectKeeps(d: Db, l: Lease, h: Handle)
    requires DbInv(d) && RecordRejection(d, l, h).Some?
    ensures Keeps(d, RecordRejection(d, l, h).value)
    ensures RecordRejection(d, l, h).value.receipts == d.receipts
  {
    AttemptChangeKeeps(d, RecordRejection(d, l, h).value, h.attempt, d.attempts[h.attempt].(state := Rejected));
  }

  lemma RejectStep(w: World, id: WorkerId)
    requires WorldInv(w) && id in w.workers
    ensures Progress(w, Step(w, RecordsRejection(id)))
  {
    ExtendsRefl(w.db);
    hide RecordRejection;
    var p := w.workers[id];
    if p.Refused? && RecordRejection(w.db, p.lease, p.handle).Some? {
      RejectKeeps(w.db, p.lease, p.handle);
      PutKeeps(w, id, RecordRejection(w.db, p.lease, p.handle).value, Acknowledged(p.lease));
    }
  }

  lemma ReconcileWithout(w: World, id: WorkerId, l: Lease)
    requires WorldInv(w) && l.task < |w.db.tasks| && ReconcileReceipt(w.db, l, Option.None).Some?
    ensures Progress(w, Put(w, id, ReconcileReceipt(w.db, l, Option.None).value, Acknowledged(l)))
  {
    var e := ReconcileReceipt(w.db, l, Option.None).value;
    SameActionsKeep(w.db, e);
    PutKeeps(w, id, e, Acknowledged(l));
  }

  lemma ReconcileWith(w: World, id: WorkerId, l: Lease, record: nat)
    requires WorldInv(w) && l.task < |w.db.tasks| && ReconcileReceipt(w.db, l, Option.Some(record)).Some?
    requires w.db.tasks[l.task].app.Some? && RecordFor(w, record, w.db.tasks[l.task].app.value)
    ensures Progress(w, Put(w, id, ReconcileReceipt(w.db, l, Option.Some(record)).value, Acknowledged(l)))
  {
    var e := ReconcileReceipt(w.db, l, Option.Some(record)).value;
    var a := w.db.tasks[l.task].app.value;
    var i := Latest(w.db, a, |w.db.attempts|).value;
    AcceptanceKeeps(w.db, e, a, i, record);
    AcceptancePut(w, id, e, Acknowledged(l), Receipt(a, i, record));
  }

  lemma ReconcileStep(w: World, id: WorkerId)
    requires WorldInv(w) && id in w.workers
    ensures Progress(w, Step(w, Reconciles(id)))
  {
    ExtendsRefl(w.db);
    hide ReconcileReceipt;
    var p := w.workers[id];
    assert PhaseOk(w, p);
    if p.Observed? && ReconcileReceipt(w.db, p.lease, p.evidence).Some? {
      match p.evidence
      case None => ReconcileWithout(w, id, p.lease);
      case Some(record) => ReconcileWith(w, id, p.lease, record);
    }
  }

  lemma CompleteKeeps(d: Db, l: Lease)
    requires DbInv(d) && Complete(d, l).Some?
    ensures Keeps(d, Complete(d, l).value)
    ensures Complete(d, l).value.receipts == d.receipts
  {
    SetTaskKeeps(d, l.task, Completed, d.tasks[l.task].runAfter);
  }

  lemma CompleteStep(w: World, id: WorkerId)
    requires WorldInv(w) && id in w.workers
    ensures Progress(w, Step(w, Completes(id)))
  {
    ExtendsRefl(w.db);
    hide Complete;
    var l := w.workers[id].lease;
    if Complete(w.db, l).Some? {
      CompleteKeeps(w.db, l);
      DropKeeps(w, id, Complete(w.db, l).value);
    }
  }

  lemma FailKeeps(d: Db, l: Lease, retryable: bool, delay: nat)
    requires DbInv(d) && Fail(d, l, retryable, delay).Some?
    ensures Keeps(d, Fail(d, l, retryable, delay).value)
    ensures Fail(d, l, retryable, delay).value.receipts == d.receipts
  {
    hide Recover, DbInv, Extends;
    var task := d.tasks[l.task];
    RecoverKeeps(d, l.task, false);
    RecoveryAddsNoReceipt(d, l.task, false);
    SetTaskKeeps(d, l.task, if retryable && task.attempts < task.maxAttempts then RetryWait else Dead, d.now + delay);
  }

  lemma FailStepIs(w: World, id: WorkerId, retryable: bool, delay: nat)
    requires id in w.workers
    ensures var e := Fail(w.db, w.workers[id].lease, retryable, delay);
            Step(w, Fails(id, retryable, delay)) == Drop(w, id, if e.Some? then e.value else w.db)
  {
    hide Fail;
  }

  lemma FailStep(w: World, id: WorkerId, retryable: bool, delay: nat)
    requires WorldInv(w) && id in w.workers
    ensures Progress(w, Step(w, Fails(id, retryable, delay)))
  {
    ExtendsRefl(w.db);
    assert DbInv(w.db);
    FailStepIs(w, id, retryable, delay);
    hide Fail, WorldInv, DbInv, Extends, Step;
    var l := w.workers[id].lease;
    if Fail(w.db, l, retryable, delay).Some? {
      FailKeeps(w.db, l, retryable, delay);
      DropKeeps(w, id, Fail(w.db, l, retryable, delay).value);
    } else {
      DropKeeps(w, id, w.db);
    }
  }

  lemma RenewStep(w: World, id: WorkerId, leaseMs: nat)
    requires WorldInv(w) && id in w.workers
    ensures Progress(w, Step(w, Renews(id, leaseMs)))
  {
    ExtendsRefl(w.db);
    var after := Renew(w.db, w.workers[id].lease, leaseMs);
    if after.Some? {
      SameActionsKeep(w.db, after.value);
      DbOnly(w, after.value);
    }
  }

  lemma ObserveStep(w: World, id: WorkerId, visible: bool)
    requires WorldInv(w) && id in w.workers
    ensures Progress(w, Step(w, Observes(id, visible)))
  {
    ExtendsRefl(w.db);
    var p := w.workers[id];
    var v := Step(w, Observes(id, visible));
    if v != w {
      PutKeeps(w, id, w.db, v.workers[id]);
    }
  }

  lemma QueueStep(w: World, e: Event)
    requires WorldInv(w) && (e.Tick? || e.Enqueues? || e.Moves?)
    ensures Progress(w, Step(w, e))
  {
    ExtendsRefl(w.db);
    var d := Step(w, e).db;
    SameActionsKeep(w.db, d);
    DbOnly(w, d);
  }

  /** A step of a worker that holds a lease. */
  predicate OfWorker(e: Event) {
    !(e.Tick? || e.Enqueues? || e.Controls? || e.Moves? || e.Cancels? || e.Claims? || e.Kill? || e.Arrives?
      || e.Vanishes?)
  }

  /** Every step keeps the invariant, only adds rows, and the employer forgets nothing. */
  lemma StepProgresses(w: World, e: Event)
    requires WorldInv(w)
    ensures Progress(w, Step(w, e))
  {
    hide Step, WorldInv, Progress;
    if OfWorker(e) && e.worker !in w.workers {
      NobodySteps(w, e);
    } else {
      match e
      case Controls(paused, stopped) => ControlStep(w, paused, stopped);
      case Cancels(t) => CancelStep(w, t);
      case Claims(id, kinds, leaseMs, concurrency) => ClaimStep(w, id, kinds, leaseMs, concurrency);
      case Kill(id) => KillStep(w, id);
      case Renews(id, leaseMs) => RenewStep(w, id, leaseMs);
      case Begins(id, revision, permitted) => BeginStep(w, id, revision, permitted);
      case Authorizes(id, permitted) => AuthorizeStep(w, id, permitted);
      case Aborts(id) => AbortStep(w, id);
      case Checks(id) => CheckStep(w, id);
      case Presses(id) => PressStep(w, id);
      case Sees(id, readable) => SeeStep(w, id, readable);
      case Arrives(sent, accepted) => ArriveStep(w, sent, accepted);
      case Vanishes(sent) => VanishStep(w, sent);
      case Confirms(id) => ConfirmStep(w, id);
      case RecordsRejection(id) => RejectStep(w, id);
      case Observes(id, visible) => ObserveStep(w, id, visible);
      case Reconciles(id) => ReconcileStep(w, id);
      case Completes(id) => CompleteStep(w, id);
      case Fails(id, retryable, delay) => FailStep(w, id, retryable, delay);
      case _ => QueueStep(w, e);
    }
  }

  lemma NobodySteps(w: World, e: Event)
    requires OfWorker(e) && e.worker !in w.workers
    requires WorldInv(w)
    ensures Progress(w, Step(w, e))
  {
    ExtendsRefl(w.db);
  }

  lemma KillStep(w: World, id: WorkerId)
    requires WorldInv(w)
    ensures Progress(w, Step(w, Kill(id)))
  {
    ExtendsRefl(w.db);
    WorkerLeaves(w, id);
  }

  // ---- Every run ----

  /** No final action has been recorded yet; queue and applications are arbitrary. */
  ghost predicate Initial(w: World) {
    && w.workers == map[] && w.employer == [] && w.refused == {} && w.flight == {}
    && w.db.intents == [] && w.db.attempts == [] && w.db.receipts == []
    && forall a :: a in w.db.apps ==> w.db.apps[a].state != Confirmed
  }

  ghost predicate IsRun(run: seq<World>, events: seq<Event>) {
    && |run| == |events| + 1
    && Initial(run[0])
    && forall i :: 0 <= i < |events| ==> run[i + 1] == Step(run[i], events[i])
  }

  lemma {:induction false} RunKeepsInv(run: seq<World>, events: seq<Event>, n: nat)
    requires IsRun(run, events) && n < |run|
    ensures WorldInv(run[n])
  {
    hide Step;
    if n > 0 {
      RunKeepsInv(run, events, n - 1);
      StepProgresses(run[n - 1], events[n - 1]);
    }
  }

  /**
   In every run an application has at most one attempt that was not
   blocked before dispatch, and nothing dispatched is ever blocked.
   */
  lemma AtMostOneFinalAction(run: seq<World>, events: seq<Event>, n: nat, i: nat, j: nat)
    requires IsRun(run, events) && n < |run|
    requires i < j < |run[n].db.attempts| && run[n].db.attempts[i].app == run[n].db.attempts[j].app
    ensures run[n].db.attempts[i].state == Blocked && !run[n].db.attempts[i].dispatched
  {
    RunKeepsInv(run, events, n);
  }

  /** In every run the employer holds at most one record per application, sent by a dispatched attempt of it. */
  lemma AtMostOneRecord(run: seq<World>, events: seq<Event>, n: nat, k: nat, m: nat)
    requires IsRun(run, events) && n < |run|
    requires k < |run[n].employer| && m < |run[n].employer| && run[n].employer[k].app == run[n].employer[m].app
    ensures k == m
  {
    RunKeepsInv(run, events, n);
    var w := run[n];
    var i, j := w.employer[k].attempt, w.employer[m].attempt;
    assert w.db.attempts[i].app == w.db.attempts[j].app && w.db.attempts[i].dispatched && w.db.attempts[j].dispatched;
    assert i == j;
  }

  /** A confirmed application has exactly one receipt, and it names the employer's record of that application. */
  lemma ConfirmationIsTrue(run: seq<World>, events: seq<Event>, n: nat, a: AppId)
    requires IsRun(run, events) && n < |run|
    requires a in run[n].db.apps && run[n].db.apps[a].state == Confirmed
    ensures exists r :: && 0 <= r < |run[n].db.receipts| && run[n].db.receipts[r].app == a
                        && RecordFor(run[n], run[n].db.receipts[r].record, a)
    ensures forall r, q :: (0 <= r < |run[n].db.receipts| && 0 <= q < |run[n].db.receipts|
                            && run[n].db.receipts[r].app == a && run[n].db.receipts[q].app == a) ==> r == q
  {
    RunKeepsInv(run, events, n);
    var d := run[n].db;
    assert HasAccepted(d, a);
    var i :| 0 <= i < |d.attempts| && d.attempts[i].app == a && d.attempts[i].state == Accepted;
    assert HasReceipt(d, i);
    var r :| 0 <= r < |d.receipts| && d.receipts[r].attempt == i;
    assert RecordFor(run[n], d.receipts[r].record, d.receipts[r].app);
    forall q | 0 <= q < |d.receipts| && d.receipts[q].app == a
      ensures q == r
    {
      assert d.attempts[d.receipts[q].attempt].app == a;
      assert d.receipts[q].attempt == i;
    }
  }
}
