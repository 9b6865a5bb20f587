/**
 The launcher protocol that lets one managed runtime own an installation
 (apps/worker/src/managed-runtime.ts): a bound port as mutex, a control record on disk,
 recovery of a dead launcher's record, and a token check before the record is removed.

 Any number of launchers run at once. Each step is one system call, launchers interleave
 freely, and any launcher can be killed before any step.
 */
module RuntimeMutex {
  type Pid = int

  /** A launcher is named by its 32-byte random token; tokens are never drawn twice. */
  type Token = int

  datatype Record = Record(pid: Pid, token: Token)

  /** `Blank` is a record file that was created but never filled in. */
  datatype Disk = Absent | Blank | Held(record: Record)

  datatype Phase =
    | Launching                  // before listening on the mutex port
    | Bound                      // listening; about to look for a record
    | Found                      // a record file exists; about to read it
    | Probing(previous: Record)  // about to test whether its process is alive
    | Aging(previous: Record)    // process gone; about to test the file's age
    | Evicting(previous: Record) // about to unlink the stale record
    | Creating                   // about to create the record file exclusively
    | Filling                    // created; about to write the record into it
    | Running                    // claimed; inside supervisor.run()
    | Releasing(claimed: bool)   // in the finally block; about to close the port
    | Looking                    // port closed, claimed; about to look for a record
    | Matching                   // about to read it and compare tokens
    | Removing                   // tokens matched; about to unlink
    | Finished

  datatype Launcher = Launcher(pid: Pid, phase: Phase)

  datatype World = World(
    launchers: map<Token, Launcher>,  // live launcher processes
    used: set<Token>,                 // every token ever drawn
    port: set<Token>,                 // who holds the mutex port: nobody or one launcher
    disk: Disk,
    others: set<Pid>                  // live processes that are not launchers
  )

  datatype Event =
    | Start(token: Token, pid: Pid)
    | Kill(token: Token)
    | OtherProcesses(pids: set<Pid>)
    | Act(token: Token, choice: Choice)

  /** What the environment decides for one system call. */
  datatype Choice = Succeed | Fail

  ghost predicate PidInUse(w: World, pid: Pid) {
    pid in w.others || exists t :: t in w.launchers && w.launchers[t].pid == pid
  }

  function Go(w: World, t: Token, phase: Phase): World
    requires t in w.launchers
  {
    w.(launchers := w.launchers[t := w.launchers[t].(phase := phase)])
  }

  /** One system call of launcher `t`. `Fail` is the call failing, or the record being too young. */
  ghost function Action(w: World, t: Token, choice: Choice): World
    requires t in w.launchers
  {
    var self := w.launchers[t];
    match self.phase
    case Launching =>
      if w.port == {} && choice == Succeed then Go(w.(port := {t}), t, Bound) else Go(w, t, Releasing(false))
    case Bound =>
      if w.disk.Absent? then Go(w, t, Creating) else Go(w, t, Found)
    case Found =>
      if w.disk.Held? && choice == Succeed then Go(w, t, Probing(w.disk.record)) else Go(w, t, Releasing(false))
    case Probing(previous) =>
      if PidInUse(w, previous.pid) || choice == Fail then Go(w, t, Releasing(false)) else Go(w, t, Aging(previous))
    case Aging(previous) =>
      if w.disk.Absent? || choice == Fail then Go(w, t, Releasing(false)) else Go(w, t, Evicting(previous))
    case Evicting(_) =>
      if w.disk.Absent? || choice == Fail then Go(w, t, Releasing(false)) else Go(w.(disk := Absent), t, Creating)
    case Creating =>
      if w.disk.Absent? && choice == Succeed then Go(w.(disk := Blank), t, Filling) else Go(w, t, Releasing(false))
    case Filling =>
      if choice == Succeed then Go(w.(disk := Held(Record(self.pid, t))), t, Running) else Go(w, t, Releasing(false))
    case Running => Go(w, t, Releasing(true))
    case Releasing(claimed) => Go(w.(port := w.port - {t}), t, if claimed then Looking else Finished)
    case Looking => Go(w, t, if w.disk.Absent? then Finished else Matching)
    case Matching =>
      Go(w, t, if w.disk.Held? && w.disk.record.token == t && choice == Succeed then Removing else Finished)
    case Removing =>
      if w.disk.Absent? || choice == Fail then Go(w, t, Finished) else Go(w.(disk := Absent), t, Finished)
    case Finished => w.(launchers := w.launchers - {t})
  }

  ghost predicate Enabled(w: World, e: Event) {
    match e
    case Start(t, pid) => t !in w.used && !PidInUse(w, pid)
    case Kill(t) => t in w.launchers
    case OtherProcesses(pids) => forall t :: t in w.launchers ==> w.launchers[t].pid !in pids
    case Act(t, _) => t in w.launchers
  }

  ghost function Step(w: World, e: Event): World
    requires Enabled(w, e)
  {
    match e
    case Start(t, pid) => w.(launchers := w.launchers[t := Launcher(pid, Launching)], used := w.used + {t})
    case Kill(t) => w.(launchers := w.launchers - {t}, port := w.port - {t})
    case OtherProcesses(pids) => w.(others := pids)
    case Act(t, choice) => Action(w, t, choice)
  }

  ghost predicate IsRun(run: seq<World>, events: seq<Event>) {
    && |run| == |events| + 1
    && forall i :: 0 <= i < |events| ==> Enabled(run[i], events[i]) && run[i + 1] == Step(run[i], events[i])
  }

  /** No launcher has started; the disk holds whatever an earlier installation left. */
  ghost predicate Initial(w: World) {
    && w.launchers == map[]
    && w.port == {}
    && (w.disk.Held? ==> w.disk.record.token in w.used)
  }

  // ---- The invariant ----

  predicate Claimant(p: Phase) {
    p.Running? || p == Releasing(true) || p.Looking? || p.Matching? || p.Removing?
  }

  predicate HoldsPort(p: Phase) {
    p.Bound? || p.Found? || p.Probing? || p.Aging? || p.Evicting? || p.Creating? || p.Filling? || p.Running?
      || p == Releasing(true)
  }

  /** A record some launcher has read and is about to judge is still the one on disk, unless its owner removed it. */
  ghost predicate Unreplaced(disk: Disk, previous: Record) {
    disk.Absent? || disk == Held(previous)
  }

  ghost predicate LauncherOk(w: World, t: Token)
    requires t in w.launchers
  {
    var self := w.launchers[t];
    && t in w.used
    && (HoldsPort(self.phase) ==> w.port == {t})
    && (Claimant(self.phase) ==> w.disk == Held(Record(self.pid, t)))
    && (self.phase.Creating? ==> w.disk.Absent?)
    && (self.phase.Filling? ==> w.disk.Blank?)
    && (self.phase.Probing? ==> Unreplaced(w.disk, self.phase.previous))
    && (self.phase.Aging? ==> Unreplaced(w.disk, self.phase.previous) && self.phase.previous.token !in w.launchers)
    && (self.phase.Evicting? ==> Unreplaced(w.disk, self.phase.previous) && self.phase.previous.token !in w.launchers)
    && (self.phase.Probing? || self.phase.Aging? || self.phase.Evicting? ==> self.phase.previous.token in w.used)
  }

  /** A live launcher named by `r` runs under the process id recorded in `r`. */
  ghost predicate PidMatches(w: World, r: Record) {
    r.token in w.launchers ==> w.launchers[r.token].pid == r.pid
  }

  ghost predicate DiskOk(w: World) {
    w.disk.Held? ==> w.disk.record.token in w.used && PidMatches(w, w.disk.record)
  }

  ghost predicate PortOk(w: World) {
    forall t :: t in w.port ==>
      t in w.launchers && w.port == {t} && (HoldsPort(w.launchers[t].phase) || w.launchers[t].phase.Releasing?)
  }

  ghost predicate LaunchersOk(w: World) {
    && (forall t :: t in w.launchers ==> LauncherOk(w, t))
    && (forall t :: t in w.launchers && w.launchers[t].phase.Probing? ==> PidMatches(w, w.launchers[t].phase.previous))
  }

  ghost predicate Inv(w: World) {
    LaunchersOk(w) && DiskOk(w) && PortOk(w)
  }

  lemma ActorStaysOk(w: World, t: Token, choice: Choice)
    requires Inv(w) && t in w.launchers
    ensures var w' := Action(w, t, choice); t in w'.launchers ==> LauncherOk(w', t)
  {
    assert LauncherOk(w, t);
  }

  lemma BystanderStaysOk(w: World, t: Token, choice: Choice, u: Token)
    requires Inv(w) && t in w.launchers && u in w.launchers && u != t
    ensures LauncherOk(Action(w, t, choice), u)
  {
    assert LauncherOk(w, t) && LauncherOk(w, u);
    assert Action(w, t, choice).launchers[u] == w.launchers[u];
  }

  lemma ActionKeepsInv(w: World, t: Token, choice: Choice)
    requires Inv(w) && t in w.launchers
    ensures Inv(Action(w, t, choice))
  {
    var w' := Action(w, t, choice);
    assert LauncherOk(w, t);
    ActorStaysOk(w, t, choice);
    forall u | u in w'.launchers && u != t
      ensures LauncherOk(w', u)
    {
      BystanderStaysOk(w, t, choice, u);
    }
  }

  lemma StepKeepsInv(w: World, e: Event)
    requires Inv(w) && Enabled(w, e)
    ensures Inv(Step(w, e))
  {
    if e.Act? {
      ActionKeepsInv(w, e.token, e.choice);
    } else {
      var w' := Step(w, e);
      forall u | u in w'.launchers
        ensures LauncherOk(w', u)
      {
        assert u in w.launchers ==> LauncherOk(w, u);
      }
    }
  }

  lemma {:induction false} RunKeepsInv(run: seq<World>, events: seq<Event>, i: nat)
    requires IsRun(run, events) && Initial(run[0]) && i < |run|
    ensures Inv(run[i])
  {
    if i > 0 {
      RunKeepsInv(run, events, i - 1);
      StepKeepsInv(run[i - 1], events[i - 1]);
    }
  }

  // ---- Main results ----

  /** In every run at most one launcher is a claimant, and the record on disk is its own until it removes it. */
  lemma MutualExclusion(run: seq<World>, events: seq<Event>, i: nat, t: Token, u: Token)
    requires IsRun(run, events) && Initial(run[0]) && i < |run|
    requires t in run[i].launchers && Claimant(run[i].launchers[t].phase)
    ensures run[i].disk == Held(Record(run[i].launchers[t].pid, t))
    ensures u in run[i].launchers && Claimant(run[i].launchers[u].phase) ==> u == t
    ensures run[i].launchers[t].phase.Running? ==> run[i].port == {t}
  {
    RunKeepsInv(run, events, i);
    assert LauncherOk(run[i], t);
    if u in run[i].launchers {
      assert LauncherOk(run[i], u);
    }
  }

  /** A record that names a live launcher is only ever changed by that launcher itself. */
  lemma LiveRecordsAreSafe(run: seq<World>, events: seq<Event>, i: nat)
    requires IsRun(run, events) && Initial(run[0]) && i < |events|
    requires run[i].disk.Held? && run[i].disk.record.token in run[i].launchers
    requires run[i + 1].disk != run[i].disk
    ensures events[i].Act? && events[i].token == run[i].disk.record.token
    ensures run[i].launchers[events[i].token].phase.Removing?
  {
    RunKeepsInv(run, events, i);
    var e := events[i];
    assert e.Act? && LauncherOk(run[i], e.token);
  }

  /** Launcher `t` has not claimed the installation and makes a call that can fail. */
  ghost predicate Trying(p: Phase) {
    p.Launching? || p.Found? || p.Probing? || p.Aging? || p.Evicting? || p.Creating? || p.Filling?
  }

  /**
   A failed call changes nothing on disk, and before the claim it ends the attempt: so does a record that vanished
   while it was being judged, or a file that is there when the record is to be created.
   */
  lemma FailedCallEndsTheAttempt(w: World, t: Token, choice: Choice)
    requires t in w.launchers
    ensures choice == Fail ==> Action(w, t, choice).disk == w.disk
    ensures var p, after := w.launchers[t].phase, Action(w, t, choice);
            (Trying(p) && choice == Fail)
            || (w.disk.Absent? && (p.Found? || p.Aging? || p.Evicting?))
            || (!w.disk.Absent? && p.Creating?) ==>
              after.launchers[t].phase == Releasing(false) && after.disk == w.disk
    ensures w.launchers[t].phase.Removing? && (w.disk.Absent? || choice == Fail) ==>
              Action(w, t, choice) == Go(w, t, Finished)
  {
  }

  // ---- When the installation can be claimed again ----

  ghost predicate AnyFilling(w: World) {
    exists t :: t in w.launchers && w.launchers[t].phase.Filling?
  }

  /** A launcher killed between creating and filling the record leaves a file nobody can recover. */
  ghost predicate Wedged(w: World) {
    w.disk.Blank? && !AnyFilling(w)
  }

  /** A sound installation becomes wedged exactly when the launcher filling the record is killed or fails to write. */
  lemma WedgesExactlyWhen(w: World, e: Event)
    requires Inv(w) && Enabled(w, e) && !Wedged(w)
    ensures Wedged(Step(w, e)) <==>
              && (e.Kill? || (e.Act? && e.choice == Fail))
              && w.launchers[e.token].phase.Filling?
  {
    var v := Step(w, e);
    if (e.Kill? || e.Act?) && w.launchers[e.token].phase.Filling? {
      assert LauncherOk(w, e.token);
      forall t | t in v.launchers && t != e.token
        ensures !v.launchers[t].phase.Filling?
      {
        assert LauncherOk(w, t);
      }
    } else if AnyFilling(w) {
      var t :| t in w.launchers && w.launchers[t].phase.Filling?;
      assert t in v.launchers && v.launchers[t].phase.Filling?;
    } else if e.Act? && v.disk.Blank? {
      assert v.launchers[e.token].phase.Filling?;
    }
  }

  /** It happens: the first launcher of an empty installation, killed after its third call. */
  lemma KillCanWedge(w: World, t: Token, pid: Pid) returns (run: seq<World>, events: seq<Event>)
    requires Initial(w) && w.disk.Absent? && Enabled(w, Start(t, pid))
    ensures IsRun(run, events) && run[0] == w && Wedged(run[|events|])
  {
    events := [Start(t, pid), Act(t, Succeed), Act(t, Succeed), Act(t, Succeed), Kill(t)];
    var w1 := Step(w, events[0]);
    var w2 := Step(w1, events[1]);
    var w3 := Step(w2, events[2]);
    var w4 := Step(w3, events[3]);
    assert w4.disk.Blank? && w4.launchers.Keys == {t};
    run := [w, w1, w2, w3, w4, Step(w4, events[4])];
    assert run[|events|].launchers == map[];
  }

  lemma WedgedForever(run: seq<World>, events: seq<Event>, i: nat, j: nat)
    requires IsRun(run, events) && Initial(run[0]) && i <= j < |run|
    requires Wedged(run[i])
    ensures Wedged(run[j])
    ensures forall t :: t in run[j].launchers ==> !run[j].launchers[t].phase.Running?
    decreases j - i
  {
    if i < j {
      WedgedForever(run, events, i, j - 1);
      var w, w', e := run[j - 1], run[j], events[j - 1];
      RunKeepsInv(run, events, j - 1);
      if e.Act? {
        assert LauncherOk(w, e.token);
      }
      assert w'.disk.Blank?;
      forall t | t in w'.launchers
        ensures !w'.launchers[t].phase.Filling?
      {
        if t in w.launchers {
          assert !w.launchers[t].phase.Filling?;
        }
      }
    }
    RunKeepsInv(run, events, j);
    forall t | t in run[j].launchers
      ensures !run[j].launchers[t].phase.Running?
    {
      assert LauncherOk(run[j], t);
    }
  }

  ghost predicate Idle(w: World) {
    w.launchers == map[] && w.port == {}
  }

  /** `n` successive calls of launcher `t` alone, none of which fails. */
  ghost function Alone(w: World, t: Token, n: nat): World
    decreases n
  {
    if n == 0 || t !in w.launchers then w else Alone(Action(w, t, Succeed), t, n - 1)
  }

  /**
   An unhindered launcher claims an idle installation exactly when the disk holds no blank
   record and no record whose process id is in use, by another process or by the launcher itself.
   */
  lemma ClaimableWhen(w: World, t: Token, pid: Pid)
    requires Idle(w) && Enabled(w, Start(t, pid))
    ensures var end := Alone(Step(w, Start(t, pid)), t, if w.disk.Held? then 8 else 4);
            (t in end.launchers && end.launchers[t].phase.Running?)
            <==> !w.disk.Blank? && (w.disk.Held? ==> w.disk.record.pid !in w.others && w.disk.record.pid != pid)
  {
    var s0 := Step(w, Start(t, pid));
    var s1 := Action(s0, t, Succeed);
    var s2 := Action(s1, t, Succeed);
    var s3 := Action(s2, t, Succeed);
    var s4 := Action(s3, t, Succeed);
    assert s3.launchers[t].pid == pid;
    if w.disk.Held? {
      assert s3.launchers.Keys == {t};
      assert PidInUse(s3, w.disk.record.pid) <==> w.disk.record.pid in w.others || w.disk.record.pid == pid;
      assert Alone(s0, t, 8) == Alone(s1, t, 7) == Alone(s2, t, 6) == Alone(s3, t, 5) == Alone(s4, t, 4);
      var s5 := Action(s4, t, Succeed);
      assert Alone(s4, t, 4) == Alone(s5, t, 3);
      if w.disk.record.pid !in w.others && w.disk.record.pid != pid {
        var s6 := Action(s5, t, Succeed);
        var s7 := Action(s6, t, Succeed);
        assert Alone(s5, t, 3) == Alone(s6, t, 2) == Alone(s7, t, 1);
      }
    } else {
      assert Alone(s0, t, 4) == Alone(s1, t, 3) == Alone(s2, t, 2) == Alone(s3, t, 1) == Alone(s4, t, 0);
    }
  }

  // ---- What a launcher leaves behind ----

  /** Launcher `t` is not killed between moments `i` and `n`, and none of its calls fails. */
  ghost predicate Unhindered(events: seq<Event>, t: Token, i: nat, n: nat) {
    forall k :: i <= k < n && k < |events| ==>
      events[k] != Kill(t) && (events[k].Act? && events[k].token == t ==> events[k].choice == Succeed)
  }

  /** How many calls launcher `t` makes between moments `i` and `n`. */
  ghost function Calls(events: seq<Event>, t: Token, i: nat, n: nat): nat
    requires i <= n <= |events|
  {
    if n == i then 0
    else Calls(events, t, i, n - 1) + (if events[n - 1].Act? && events[n - 1].token == t then 1 else 0)
  }

  ghost predicate Names(disk: Disk, t: Token) {
    disk.Held? && disk.record.token == t
  }

  /**
   By moment `n` launcher `t` is gone and holds no port, and at moment `m` it removed its own record: the record
   has not come back, and the disk has no record at all unless another launcher acted since.
   */
  ghost predicate CleanedUp(run: seq<World>, events: seq<Event>, m: nat, n: nat, t: Token) {
    && 0 < m <= n < |run| && n <= |events|
    && t !in run[n].launchers && t !in run[n].port
    && events[m - 1].Act? && events[m - 1].token == t && Names(run[m - 1].disk, t) && run[m].disk.Absent?
    && (forall k :: m <= k <= n ==> !Names(run[k].disk, t))
    && ((forall k :: m <= k < n && events[k].Act? ==> events[k].token == t) ==> run[n].disk.Absent?)
  }

  /** The phases a claimant still goes through. */
  function Ahead(w: World, t: Token): nat {
    if t !in w.launchers then 0
    else
      match w.launchers[t].phase
      case Running => 6
      case Releasing(_) => 5
      case Looking => 4
      case Matching => 3
      case Removing => 2
      case _ => 1
  }

  /** Its record is gone, and it will not write another. */
  ghost predicate Done(w: World, t: Token) {
    && t in w.used && !Names(w.disk, t) && t !in w.port
    && (t in w.launchers ==> w.launchers[t].phase.Finished?)
  }

  lemma ClaimantAdvances(w: World, e: Event, t: Token)
    requires Inv(w) && Enabled(w, e) && t in w.launchers && Claimant(w.launchers[t].phase)
    requires e != Kill(t) && (e.Act? && e.token == t ==> e.choice == Succeed)
    ensures var v := Step(w, e);
            if e.Act? && e.token == t
            then Ahead(v, t) == Ahead(w, t) - 1 && t in v.launchers
                 && (if Ahead(v, t) == 1 then Names(w.disk, t) && v.disk.Absent? && Done(v, t)
                     else Claimant(v.launchers[t].phase))
            else Ahead(v, t) == Ahead(w, t) && t in v.launchers && Claimant(v.launchers[t].phase)
  {
    assert LauncherOk(w, t);
    if e.Act? {
      assert LauncherOk(w, e.token);
    }
  }

  lemma StaysDone(w: World, e: Event, t: Token)
    requires Inv(w) && Enabled(w, e) && Done(w, t)
    ensures Done(Step(w, e), t)
    ensures (if e.Act? && e.token == t then t in w.launchers && t !in Step(w, e).launchers
             else t in Step(w, e).launchers ==> t in w.launchers)
    ensures w.disk.Absent? && !(e.Act? && e.token != t) ==> Step(w, e).disk.Absent?
  {
    if e.Act? {
      assert LauncherOk(w, e.token);
    }
  }

  /** What is true of an unhindered claimant at moment `n`, having removed its record at moment `m` if it did. */
  ghost predicate Leaving(run: seq<World>, events: seq<Event>, i: nat, m: nat, n: nat, t: Token)
    requires i <= n < |run| && n <= |events|
  {
    if t in run[n].launchers && Claimant(run[n].launchers[t].phase)
    then Ahead(run[n], t) + Calls(events, t, i, n) == Ahead(run[i], t)
    else
      && i < m <= n && Done(run[n], t) && Ahead(run[n], t) + Calls(events, t, i, n) <= Ahead(run[i], t)
      && events[m - 1].Act? && events[m - 1].token == t && Names(run[m - 1].disk, t) && run[m].disk.Absent?
      && (forall k :: m <= k <= n ==> !Names(run[k].disk, t))
      && ((forall k :: m <= k < n && events[k].Act? ==> events[k].token == t) ==> run[n].disk.Absent?)
  }

  lemma {:induction false} ClaimantLeaves(run: seq<World>, events: seq<Event>, i: nat, n: nat, t: Token)
    returns (m: nat)
    requires IsRun(run, events) && Initial(run[0]) && i <= n < |run| && Unhindered(events, t, i, n)
    requires t in run[i].launchers && Claimant(run[i].launchers[t].phase)
    ensures Leaving(run, events, i, m, n, t)
  {
    hide Step, Inv, Initial;
    m := 0;
    if i < n {
      m := ClaimantLeaves(run, events, i, n - 1, t);
      RunKeepsInv(run, events, n - 1);
      var w, e := run[n - 1], events[n - 1];
      if t in w.launchers && Claimant(w.launchers[t].phase) {
        ClaimantAdvances(w, e, t);
        if Ahead(run[n], t) == 1 {
          m := n;
        }
      } else {
        StaysDone(w, e, t);
      }
    }
  }

  /**
   A claimant that is not killed and whose calls succeed is gone within six calls, whatever others do in between,
   and then it has removed its own record and freed the port.
   */
  lemma ClaimantCleansUp(run: seq<World>, events: seq<Event>, i: nat, n: nat, t: Token)
    requires IsRun(run, events) && Initial(run[0]) && i <= n < |run| && Unhindered(events, t, i, n)
    requires t in run[i].launchers && Claimant(run[i].launchers[t].phase)
    ensures Calls(events, t, i, n) >= 6 ==> t !in run[n].launchers
    ensures t !in run[n].launchers ==> exists m :: i < m && CleanedUp(run, events, m, n, t)
  {
    var m := ClaimantLeaves(run, events, i, n, t);
    if t !in run[n].launchers {
      assert CleanedUp(run, events, m, n, t);
    }
  }

  /** Left alone, a launcher that ran leaves an installation that the next one claims. */
  lemma NextOneClaims(w: World, t: Token, next: Token, pid: Pid)
    requires Inv(w) && w.launchers.Keys == {t} && w.launchers[t].phase.Running?
    ensures var end := Alone(w, t, 6);
            && Idle(end) && end.disk.Absent?
            && (Enabled(end, Start(next, pid)) ==>
                  var claimed := Alone(Step(end, Start(next, pid)), next, 4);
                  next in claimed.launchers && claimed.launchers[next].phase.Running?)
  {
    assert LauncherOk(w, t);
    var w1 := Action(w, t, Succeed);
    var w2 := Action(w1, t, Succeed);
    var w3 := Action(w2, t, Succeed);
    var w4 := Action(w3, t, Succeed);
    var w5 := Action(w4, t, Succeed);
    var w6 := Action(w5, t, Succeed);
    assert w5.disk.Absent? && w6.launchers == map[] && w6.port == {};
    assert Alone(w, t, 6) == Alone(w1, t, 5) == Alone(w2, t, 4) == Alone(w3, t, 3) == Alone(w4, t, 2);
    assert Alone(w4, t, 2) == Alone(w5, t, 1) == Alone(w6, t, 0) == w6;
    hide Action;
    if Enabled(w6, Start(next, pid)) {
      ClaimableWhen(w6, next, pid);
    }
  }
}
