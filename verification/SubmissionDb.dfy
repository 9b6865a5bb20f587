/**
 The transactions behind the final submit action (packages/persistence/src/repository.ts and
 submission-repository.ts). Each repository method is one serialised transaction: a function from
 database to database, or None when it throws and rolls back.
 */
module SubmissionDb {
  import opened Outcome

  type AppId = int
  type WorkerId = int

  datatype AppState =
    | Discovered | Normalized | Assessed | Eligible | Preparing | Prepared | Inspecting | Ready
    | IntentRecorded | InFlight | Confirmed | DefinitiveFailure | Unknown | Reconciling | NeedsReview
    | NeedsInput | Unsupported | ChallengeRequired | RetryLater | Paused
    | Skipped | Closed | Duplicate | HistoricalSubmitted

  datatype App = App(state: AppState, revision: nat, commitFence: nat)

  datatype Kind = Submit | Reconcile | OtherWork
  datatype TaskState = Queued | RetryWait | Leased | Completed | Cancelled | Dead

  /** A queue key: chosen by a caller, or derived for the reconciliation of a task. */
  datatype Key = Chosen(text: string) | ForReconcile(app: AppId, task: nat)

  /** `fence`, `owner` and `until` describe the latest lease. */
  datatype Task = Task(
    kind: Kind, app: Option<AppId>, domain: string, key: Key, priority: int, state: TaskState,
    runAfter: int, attempts: nat, maxAttempts: nat, fence: nat, owner: WorkerId, until: int
  )

  datatype Intent = Intent(app: AppId, task: nat, fence: nat)

  datatype AttemptState = Flying | Uncertain | Blocked | Accepted | Rejected

  datatype Attempt = Attempt(app: AppId, intent: nat, fence: nat, state: AttemptState, dispatched: bool)

  /** `record` is the employer record the evidence names. */
  datatype Receipt = Receipt(app: AppId, attempt: nat, record: nat)

  /** Rows are in insertion order; a row's index is its id. */
  datatype Db = Db(
    now: int, paused: bool, stopped: bool, nextFence: nat,
    apps: map<AppId, App>, tasks: seq<Task>,
    intents: seq<Intent>, attempts: seq<Attempt>, receipts: seq<Receipt>
  )

  /** What a worker remembers of a claimed task. */
  datatype Lease = Lease(task: nat, fence: nat, owner: WorkerId)

  /** What `begin` returns. */
  datatype Handle = Handle(app: AppId, attempt: nat, fence: nat)

  predicate Uncertainty(s: AppState) {
    s in {InFlight, Unknown, Reconciling, NeedsReview}
  }

  predicate ValidLease(db: Db, l: Lease, kind: Kind) {
    && l.task < |db.tasks|
    && var t := db.tasks[l.task];
       t.kind == kind && t.state == Leased && t.fence == l.fence && t.owner == l.owner && t.until > db.now
  }

  predicate HasApp(db: Db, t: nat)
    requires t < |db.tasks|
  {
    db.tasks[t].app.Some? && db.tasks[t].app.value in db.apps
  }

  function SetApp(db: Db, a: AppId, state: AppState, bumps: nat): Db
    requires a in db.apps
  {
    db.(apps := db.apps[a := db.apps[a].(state := state, revision := db.apps[a].revision + bumps)])
  }

  function SetTask(db: Db, t: nat, state: TaskState, runAfter: int): Db
    requires t < |db.tasks|
  {
    db.(tasks := db.tasks[t := db.tasks[t].(state := state, runAfter := runAfter)])
  }

  function SetAttempt(db: Db, i: nat, state: AttemptState): Db
    requires i < |db.attempts|
  {
    db.(attempts := db.attempts[i := db.attempts[i].(state := state)])
  }

  /** Inserts a task unless its key is already queued. */
  function Enqueue(db: Db, task: Task): Db {
    if exists i :: 0 <= i < |db.tasks| && db.tasks[i].key == task.key then db
    else db.(tasks := db.tasks + [task.(state := Queued, attempts := 0, fence := 0, owner := 0, until := 0)])
  }

  /** A pre-dispatch abort of this very lease is on record. */
  predicate StoppedBeforeDispatch(db: Db, t: nat)
    requires t < |db.tasks|
  {
    exists i :: 0 <= i < |db.attempts| && StoppedAt(db, t, i)
  }

  predicate StoppedAt(db: Db, t: nat, i: nat)
    requires t < |db.tasks| && i < |db.attempts|
  {
    var x := db.attempts[i];
    && db.tasks[t].app == Option.Some(x.app)
    && x.fence == db.tasks[t].fence
    && x.state == Blocked && !x.dispatched
    && x.intent < |db.intents| && db.intents[x.intent].task == t
  }

  /** The attempts of `a` that were flying are uncertain. */
  function Grounded(attempts: seq<Attempt>, a: AppId): (r: seq<Attempt>)
    ensures |r| == |attempts|
    ensures forall i :: 0 <= i < |r| ==> !(r[i].app == a && r[i].state == Flying)
    ensures forall i :: 0 <= i < |r| && r[i] != attempts[i] ==>
              attempts[i].app == a && attempts[i].state == Flying && r[i] == attempts[i].(state := Uncertain)
  {
    seq(|attempts|, i requires 0 <= i < |attempts| =>
      if attempts[i].app == a && attempts[i].state == Flying then attempts[i].(state := Uncertain) else attempts[i])
  }

  function ReconcileTask(t: nat, task: Task, a: AppId, now: int): Task {
    Task(Reconcile, Option.Some(a), task.domain, ForReconcile(a, t), 100, Queued, now, 0, 4, 0, 0, 0)
  }

  /** A task given back waits for another try, or is dead after its last attempt. */
  function Again(task: Task): TaskState {
    if task.attempts >= task.maxAttempts then Dead else RetryWait
  }

  /** Takes a task away from its lease; a submit that may have reached the employer becomes reconciliation work. */
  function Recover(db: Db, t: nat, cancelled: bool): Db
    requires t < |db.tasks|
  {
    var task := db.tasks[t];
    if task.kind == Submit && HasApp(db, t) && Uncertainty(db.apps[task.app.value].state) then
      var a := task.app.value;
      var marked := if db.apps[a].state == InFlight
                    then SetApp(db, a, Unknown, 1).(attempts := Grounded(db.attempts, a)) else db;
      var queued := Enqueue(marked, ReconcileTask(t, task, a, db.now));
      SetTask(queued, t, Cancelled, task.runAfter)
    else if task.kind == Submit && HasApp(db, t) && db.apps[task.app.value].state == Confirmed then
      SetTask(db, t, Completed, task.runAfter)
    else if task.kind == Submit && HasApp(db, t) && db.apps[task.app.value].state == Unsupported
      && StoppedBeforeDispatch(db, t) then
      SetTask(db, t, Completed, task.runAfter)
    else
      SetTask(db, t, if cancelled then Cancelled else Again(task), db.now)
  }

  /** Recovers every leased task among the first `n` whose lease has run out. */
  function RecoverExpired(db: Db, n: nat): (r: Db)
    requires n <= |db.tasks|
    ensures |r.tasks| >= |db.tasks|
  {
    if n == 0 then db
    else
      var d := RecoverExpired(db, n - 1);
      if d.tasks[n - 1].state == Leased && d.tasks[n - 1].until <= d.now then Recover(d, n - 1, false) else d
  }

  /** Recovers every leased submit among the first `n`, as when submissions are paused. */
  function RecoverSubmits(db: Db, n: nat): (r: Db)
    requires n <= |db.tasks|
    ensures |r.tasks| >= |db.tasks|
  {
    if n == 0 then db
    else
      var d := RecoverSubmits(db, n - 1);
      if d.tasks[n - 1].state == Leased && d.tasks[n - 1].kind == Submit then Recover(d, n - 1, true) else d
  }

  predicate Final(s: AppState) {
    Uncertainty(s) || s in {Confirmed, HistoricalSubmitted, Closed, Skipped, Duplicate}
  }

  /** No leased task shares the domain or the application of task `t`. */
  predicate Unobstructed(db: Db, t: nat)
    requires t < |db.tasks|
  {
    forall u :: 0 <= u < |db.tasks| && db.tasks[u].state == Leased ==>
      db.tasks[u].domain != db.tasks[t].domain && (db.tasks[u].app.None? || db.tasks[u].app != db.tasks[t].app)
  }

  predicate CanClaim(db: Db, kinds: set<Kind>, t: nat)
    requires t < |db.tasks|
  {
    var task := db.tasks[t];
    && task.state in {Queued, RetryWait}
    && task.runAfter <= db.now
    && task.kind in kinds
    && Unobstructed(db, t)
    && !(task.kind == Submit && HasApp(db, t) && Final(db.apps[task.app.value].state))
  }

  /** The eligible task of highest priority among the first `n`, the oldest on ties. */
  function Best(db: Db, kinds: set<Kind>, n: nat): (b: Option<nat>)
    requires n <= |db.tasks|
    ensures b.Some? ==> b.value < n && CanClaim(db, kinds, b.value)
    ensures forall t :: 0 <= t < n && CanClaim(db, kinds, t) ==>
              b.Some? && db.tasks[t].priority <= db.tasks[b.value].priority
    ensures b.Some? ==> forall t :: 0 <= t < b.value && CanClaim(db, kinds, t) ==>
              db.tasks[t].priority < db.tasks[b.value].priority
  {
    if n == 0 then Option.None
    else
      var b := Best(db, kinds, n - 1);
      if CanClaim(db, kinds, n - 1) && (b.None? || db.tasks[n - 1].priority > db.tasks[b.value].priority)
      then Option.Some(n - 1) else b
  }

  function LeasedCount(db: Db, n: nat): nat
    requires n <= |db.tasks|
  {
    if n == 0 then 0 else LeasedCount(db, n - 1) + (if db.tasks[n - 1].state == Leased then 1 else 0)
  }

  function Allowed(db: Db, kinds: set<Kind>): set<Kind> {
    set k | k in kinds && !db.stopped && !(k == Submit && db.paused)
  }

  function Grant(db: Db, t: nat, worker: WorkerId, leaseMs: nat): Db
    requires t < |db.tasks|
  {
    var fence := db.nextFence + 1;
    var task := db.tasks[t];
    var d := db.(nextFence := fence,
                 tasks := db.tasks[t := task.(state := Leased, fence := fence, attempts := task.attempts + 1,
                                              owner := worker, until := db.now + leaseMs)]);
    if task.kind == Submit && HasApp(db, t) then
      var a := task.app.value;
      d.(apps := d.apps[a := d.apps[a].(commitFence := fence)])
    else d
  }

  /** Recovers expired leases, then leases the best eligible task, if any. */
  function Claim(db: Db, worker: WorkerId, kinds: set<Kind>, leaseMs: nat, concurrency: nat): (r: (Db, Option<Lease>)) {
    if kinds == {} || leaseMs < 1000 || leaseMs > 300000 || concurrency < 1 || concurrency > 20 then (db, Option.None)
    else
      var d := RecoverExpired(db, |db.tasks|);
      if Allowed(d, kinds) == {} || LeasedCount(d, |d.tasks|) >= concurrency then (d, Option.None)
      else
        match Best(d, Allowed(d, kinds), |d.tasks|)
        case None => (d, Option.None)
        case Some(t) => (Grant(d, t, worker, leaseMs), Option.Some(Lease(t, d.nextFence + 1, worker)))
  }

  /** An earlier attempt that reached, or may have reached, the employer. */
  predicate Counts(x: Attempt) {
    x.state != Blocked || x.dispatched
  }

  predicate PriorFinalAction(db: Db, a: AppId) {
    exists i :: 0 <= i < |db.attempts| && db.attempts[i].app == a && Counts(db.attempts[i])
  }

  /** Records the intent to submit. `permitted` stands for the packet, preparation, policy and hand-off checks. */
  function Begin(db: Db, l: Lease, expectedRevision: nat, permitted: bool): Option<(Db, Handle)> {
    if ValidLease(db, l, Submit) && HasApp(db, l.task) && !db.paused && !db.stopped && permitted then
      var a := db.tasks[l.task].app.value;
      var app := db.apps[a];
      if app.state == Ready && app.revision == expectedRevision && app.commitFence == l.fence
        && !PriorFinalAction(db, a) then
        var d := SetApp(db, a, InFlight, 2);
        Option.Some((
          d.(intents := db.intents + [Intent(a, l.task, l.fence)],
             attempts := db.attempts + [Attempt(a, |db.intents|, l.fence, Flying, false)]),
          Handle(a, |db.attempts|, l.fence)))
      else Option.None
    else Option.None
  }

  /** The in-flight attempt named by `h`, under a lease of its own application. */
  predicate InFlightUnder(db: Db, l: Lease, h: Handle) {
    && ValidLease(db, l, Submit)
    && db.tasks[l.task].app == Option.Some(h.app) && l.fence == h.fence
    && h.app in db.apps && db.apps[h.app].state == InFlight && db.apps[h.app].commitFence == h.fence
    && h.attempt < |db.attempts|
    && db.attempts[h.attempt].app == h.app && db.attempts[h.attempt].state == Flying
  }

  predicate BoundTo(db: Db, l: Lease, h: Handle)
    requires h.attempt < |db.attempts|
  {
    && db.attempts[h.attempt].intent < |db.intents|
    && db.intents[db.attempts[h.attempt].intent].task == l.task
    && db.intents[db.attempts[h.attempt].intent].fence == h.fence
  }

  /** Grants the single dispatch. `permitted` stands for the policy, packet and answer checks repeated here. */
  function AuthorizeDispatch(db: Db, l: Lease, h: Handle, permitted: bool): Option<Db> {
    if InFlightUnder(db, l, h) && BoundTo(db, l, h) && !db.attempts[h.attempt].dispatched
       && !db.paused && !db.stopped && permitted
    then Option.Some(db.(attempts := db.attempts[h.attempt := db.attempts[h.attempt].(dispatched := true)]))
    else Option.None
  }

  function AbortBeforeDispatch(db: Db, l: Lease, h: Handle): Option<Db> {
    if InFlightUnder(db, l, h) && BoundTo(db, l, h) && !db.attempts[h.attempt].dispatched
    then Option.Some(SetApp(SetAttempt(db, h.attempt, Blocked), h.app, Unsupported, 1))
    else Option.None
  }

  predicate RecordUsed(db: Db, record: nat) {
    exists i :: 0 <= i < |db.receipts| && db.receipts[i].record == record
  }

  function ConfirmReceipt(db: Db, l: Lease, h: Handle, record: nat): Option<Db> {
    if InFlightUnder(db, l, h) && db.attempts[h.attempt].dispatched && !RecordUsed(db, record)
    then Option.Some(SetApp(SetAttempt(db, h.attempt, Accepted), h.app, Confirmed, 1)
                     .(receipts := db.receipts + [Receipt(h.app, h.attempt, record)]))
    else Option.None
  }

  function RecordRejection(db: Db, l: Lease, h: Handle): Option<Db> {
    if InFlightUnder(db, l, h) && db.attempts[h.attempt].dispatched
    then Option.Some(SetApp(SetAttempt(db, h.attempt, Rejected), h.app, DefinitiveFailure, 1))
    else Option.None
  }

  /** The latest attempt of an application among the first `n`. */
  function Latest(db: Db, a: AppId, n: nat): (r: Option<nat>)
    requires n <= |db.attempts|
    ensures r.Some? ==> r.value < n && db.attempts[r.value].app == a
    ensures forall i :: 0 <= i < n && db.attempts[i].app == a ==> r.Some? && i <= r.value
  {
    if n == 0 then Option.None
    else if db.attempts[n - 1].app == a then Option.Some(n - 1)
    else Latest(db, a, n - 1)
  }

  /** Decides an uncertain attempt by the employer record found for it, if any. */
  function ReconcileReceipt(db: Db, l: Lease, evidence: Option<nat>): Option<Db> {
    if ValidLease(db, l, Reconcile) && HasApp(db, l.task) then
      var a := db.tasks[l.task].app.value;
      match Latest(db, a, |db.attempts|)
      case None => Option.None
      case Some(i) =>
        if db.apps[a].state in {Unknown, NeedsReview} && db.attempts[i].state == Uncertain then
          match evidence
          case None => Option.Some(SetApp(db, a, NeedsReview, 2))
          case Some(record) =>
            if RecordUsed(db, record) then Option.None
            else Option.Some(SetApp(SetAttempt(db, i, Accepted), a, Confirmed, 2)
                             .(receipts := db.receipts + [Receipt(a, i, record)]))
        else Option.None
    else Option.None
  }

  predicate Settled(db: Db, t: nat)
    requires t < |db.tasks|
  {
    db.tasks[t].kind == Submit ==>
      && HasApp(db, t)
      && (db.apps[db.tasks[t].app.value].state in {Confirmed, DefinitiveFailure}
          || (db.apps[db.tasks[t].app.value].state == Unsupported && StoppedBeforeDispatch(db, t)))
  }

  function Complete(db: Db, l: Lease): Option<Db> {
    if l.task < |db.tasks| && ValidLease(db, l, db.tasks[l.task].kind) && Settled(db, l.task)
    then Option.Some(SetTask(db, l.task, Completed, db.tasks[l.task].runAfter))
    else Option.None
  }

  function Fail(db: Db, l: Lease, retryable: bool, delay: nat): Option<Db> {
    if l.task < |db.tasks| && ValidLease(db, l, db.tasks[l.task].kind) then
      var task := db.tasks[l.task];
      if task.kind == Submit && HasApp(db, l.task)
         && (Uncertainty(db.apps[task.app.value].state) || db.apps[task.app.value].state == Confirmed)
      then Option.Some(Recover(db, l.task, false))
      else Option.Some(SetTask(db, l.task, if retryable
                               && task.attempts < task.maxAttempts then RetryWait else Dead, db.now + delay))
    else Option.None
  }

  function CancelTask(db: Db, t: nat): Option<Db> {
    if t >= |db.tasks| then Option.None
    else if db.tasks[t].state in {Completed, Cancelled, Dead} then Option.Some(db)
    else if db.tasks[t].kind == Reconcile then Option.None
    else Option.Some(Recover(db, t, true))
  }

  function SetControl(db: Db, paused: bool, stopped: bool): Db {
    var d := db.(paused := paused, stopped := stopped);
    if paused || stopped then RecoverSubmits(d, |d.tasks|) else d
  }

  function Renew(db: Db, l: Lease, leaseMs: nat): Option<Db> {
    if 1000 <= leaseMs <= 300000 && l.task < |db.tasks| && ValidLease(db, l, db.tasks[l.task].kind)
       && !db.stopped && !(db.tasks[l.task].kind == Submit && db.paused)
    then Option.Some(db.(tasks := db.tasks[l.task := db.tasks[l.task].(until := db.now + leaseMs)]))
    else Option.None
  }

  /** Any other repository moves an application; only this protocol writes InFlight and Confirmed. */
  function MoveApplication(db: Db, a: AppId, state: AppState): Db {
    if state in {InFlight, Confirmed} then db
    else if a in db.apps then SetApp(db, a, state, 1)
    else db.(apps := db.apps[a := App(state, 0, 0)])
  }
}
