/**
 Ownership of a process tree across repeated censuses (scripts/owned-processes.ts). A process is
 named by its pid and its start time; pids are reused, pid-and-start pairs are not.
 */
module OwnedProcesses {
  import opened Outcome
  import opened Collections
  import TextOrder

  /** `start` keeps its digits: identity compares the text, order compares the number. */
  datatype Process = Process(pid: int, ppid: int, start: string, rss: int)

  type Owned = map<int, string>

  const MAX_RSS := 8 * 1024 * 1024 * 1024 * 1024
  const MAX_PROCESSES := 1000
  const MAX_SAFE := 0x1F_FFFF_FFFF_FFFF

  predicate AllDigits(s: string) {
    forall i :: 0 <= i < |s| ==> '0' <= s[i] <= '9'
  }

  predicate Digits(s: string) {
    1 <= |s| <= 40 && AllDigits(s)
  }

  function Number(s: string): (n: int)
    requires AllDigits(s)
    ensures 0 <= n
  {
    if s == [] then 0 else 10 * Number(s[..|s| - 1]) + (s[|s| - 1] as int - '0' as int)
  }

  predicate ValidRecord(p: Process) {
    0 < p.pid <= 2147483647 && 0 <= p.ppid <= 2147483647 && Digits(p.start) && 0 <= p.rss <= MAX_RSS
  }

  predicate Distinct(records: seq<Process>) {
    forall i, j :: 0 <= i < j < |records| ==> records[i].pid != records[j].pid
  }

  /** What the census schema accepts. */
  predicate Parses(records: seq<Process>) {
    |records| <= 20000 && forall i :: 0 <= i < |records| ==> ValidRecord(records[i])
  }

  function ByPid(records: seq<Process>): (m: map<int, Process>)
    requires Distinct(records)
    ensures forall r :: r in records ==> r.pid in m && m[r.pid] == r
    ensures forall pid :: pid in m ==> m[pid] in records && m[pid].pid == pid
  {
    if records == [] then map[]
    else
      var rest, last := records[..|records| - 1], records[|records| - 1];
      assert forall r :: r in records <==> r in rest || r == last by {
        assert records == rest + [last];
      }
      assert forall r :: r in rest ==> r.pid != last.pid;
      ByPid(rest)[last.pid := last]
  }

  /** A census that passed the schema and repeats no pid. */
  type Census = map<int, Process>

  predicate WellFormed(census: Census) {
    forall pid :: pid in census ==> census[pid].pid == pid && ValidRecord(census[pid])
  }

  /** `child` was born to the process now listed under its parent pid, not to a predecessor of that pid. */
  predicate Child(census: Census, child: int)
    requires WellFormed(census)
  {
    && child in census
    && census[child].ppid in census
    && Number(census[child].start) >= Number(census[census[child].ppid].start)
  }

  // ---- Specification: the least owned set ----

  /** Previously owned identities that are still listed with the same start. */
  function Surviving(owned: Owned, census: Census): set<int> {
    set pid | pid in owned && pid in census && census[pid].start == owned[pid]
  }

  ghost predicate Closed(s: set<int>, census: Census)
    requires WellFormed(census)
  {
    forall pid :: Child(census, pid) && census[pid].ppid in s ==> pid in s
  }

  /** The listed pids that every closed set containing `seed` contains. */
  ghost function Closure(seed: set<int>, census: Census): set<int>
    requires WellFormed(census)
  {
    set pid | pid in census && forall t: set<int> :: seed <= t && Closed(t, census) ==> pid in t
  }

  /** `tree` is closed, contains `seed` and is contained in every set that is and does. */
  ghost predicate Least(tree: set<int>, seed: set<int>, census: Census)
    requires WellFormed(census)
  {
    && seed <= tree
    && Closed(tree, census)
    && forall t: set<int> :: seed <= t && Closed(t, census) ==> tree <= t
  }

  lemma ClosureIsLeast(seed: set<int>, census: Census)
    requires WellFormed(census) && seed <= census.Keys
    ensures Least(Closure(seed, census), seed, census)
    ensures Closure(seed, census) <= census.Keys
  {
    var c := Closure(seed, census);
    forall pid | Child(census, pid) && census[pid].ppid in c
      ensures pid in c
    {
      forall t: set<int> | seed <= t && Closed(t, census)
        ensures pid in t
      {
        assert census[pid].ppid in t;
      }
    }
  }

  ghost function Named(pids: set<int>, census: Census): Owned
    requires pids <= census.Keys
  {
    map pid | pid in pids :: census[pid].start
  }

  /** Resident memory of a set of listed processes. */
  ghost function Rss(pids: set<int>, census: Census): int
    requires pids <= census.Keys
  {
    if pids == {} then 0
    else
      var pid := AnyOf(pids);
      census[pid].rss + Rss(pids - {pid}, census)
  }

  lemma {:induction false} RssSplit(pids: set<int>, pid: int, census: Census)
    requires pids <= census.Keys && pid in pids
    ensures Rss(pids, census) == census[pid].rss + Rss(pids - {pid}, census)
  {
    var q := AnyOf(pids);
    if q != pid {
      RssSplit(pids - {q}, pid, census);
      RssSplit(pids - {pid}, q, census);
      assert pids - {q} - {pid} == pids - {pid} - {q};
    }
  }

  lemma {:induction false} RssBounded(pids: set<int>, census: Census)
    requires WellFormed(census) && pids <= census.Keys
    ensures 0 <= Rss(pids, census) <= |pids| * MAX_RSS
  {
    if pids != {} {
      var pid := AnyOf(pids);
      RssSplit(pids, pid, census);
      RssBounded(pids - {pid}, census);
    }
  }

  /** A thousand processes of the largest accepted size still sum to a safe integer. */
  lemma MemoryTotalIsSafe(pids: set<int>, census: Census)
    requires WellFormed(census) && pids <= census.Keys && |pids| <= MAX_PROCESSES
    ensures 0 <= Rss(pids, census) < MAX_SAFE
  {
    RssBounded(pids, census);
  }

  datatype Refusal = Malformed | RepeatedPid | RootGone | RootMemory | TooManyProcesses

  datatype Report = Report(processCount: nat, rssBytes: int, peakRssBytes: int, peakProcesses: int)

  /** The tracker's fields. */
  datatype State = State(owned: Owned, rootStart: Option<string>, peakRssBytes: int, peakProcesses: int)

  function Max(a: int, b: int): int {
    if a < b then b else a
  }

  /** The census a raw record list stands for, or why it is refused. */
  function Accepted(rootPid: int, rootStart: Option<string>, records: seq<Process>): (r: Result<Census, Refusal>)
    ensures r.Ok? ==> WellFormed(r.value) && rootPid in r.value && Distinct(records) && r.value == ByPid(records)
    ensures r.Ok? && rootStart.Some? ==> r.value[rootPid].start == rootStart.value
  {
    if !Parses(records) then Err(Malformed)
    else if !Distinct(records) then Err(RepeatedPid)
    else
      var census := ByPid(records);
      if rootPid !in census || (rootStart.Some? && census[rootPid].start != rootStart.value) then Err(RootGone)
      else if census[rootPid].rss == 0 then Err(RootMemory)
      else Ok(census)
  }

  ghost function Seed(rootPid: int, owned: Owned, census: Census): set<int> {
    Surviving(owned, census) + {rootPid}
  }

  ghost function NowOwned(rootPid: int, owned: Owned, census: Census): set<int>
    requires WellFormed(census)
  {
    Closure(Seed(rootPid, owned, census), census)
  }

  /**
   What one sample does. A refused census leaves the tracker alone; an oversized tree leaves it
   owning some of the tree; otherwise it owns exactly the closure.
   */
  ghost predicate Samples(rootPid: int, before: State, records: seq<Process>, after: State,
                          r: Result<Report, Refusal>) {
    match Accepted(rootPid, before.rootStart, records)
    case Err(refusal) => after == before && r == Err(refusal)
    case Ok(census) => SamplesTree(rootPid, before, census, NowOwned(rootPid, before.owned, census), after, r)
  }

  ghost predicate SamplesTree(rootPid: int, before: State, census: Census, tree: set<int>, after: State,
                              r: Result<Report, Refusal>) {
    && rootPid in census && tree <= census.Keys
    && after.rootStart == Some(census[rootPid].start)
    && if |tree| > MAX_PROCESSES then
         && r == Err(TooManyProcesses)
         && after.peakRssBytes == before.peakRssBytes && after.peakProcesses == before.peakProcesses
         && Seed(rootPid, before.owned, census) <= after.owned.Keys <= tree
         && after.owned == Named(after.owned.Keys, census)
       else
         && after.owned == Named(tree, census)
         && after.peakRssBytes == Max(before.peakRssBytes, Rss(tree, census))
         && after.peakProcesses == Max(before.peakProcesses, |tree|)
         && r == Ok(Report(|tree|, Rss(tree, census), after.peakRssBytes, after.peakProcesses))
  }

  /** What the fixpoint loop keeps: between the seed and the tree to be found, with current start times. */
  ghost predicate Growing(owned: Owned, seed: set<int>, tree: set<int>, census: Census) {
    && seed <= owned.Keys <= tree
    && forall pid :: pid in owned ==> pid in census && owned[pid] == census[pid].start
  }

  lemma GrowingIsNamed(owned: Owned, seed: set<int>, tree: set<int>, census: Census)
    requires Growing(owned, seed, tree, census)
    ensures owned.Keys <= census.Keys && owned == Named(owned.Keys, census)
  {
    forall pid | pid in owned.Keys
      ensures pid in census.Keys
    {
      assert pid in owned;
    }
    var named := Named(owned.Keys, census);
    forall pid | pid in owned
      ensures named[pid] == owned[pid]
    {
    }
  }

  /** No listed child of `s` among `records` is missing from `s`. */
  ghost predicate ClosedSoFar(records: seq<Process>, s: set<int>, census: Census)
    requires WellFormed(census)
  {
    forall r :: r in records && Child(census, r.pid) && census[r.pid].ppid in s ==> r.pid in s
  }

  lemma PassedIsClosed(records: seq<Process>, s: set<int>, census: Census)
    requires WellFormed(census) && Distinct(records) && census == ByPid(records)
    requires ClosedSoFar(records, s, census)
    ensures Closed(s, census)
  {
    forall pid | Child(census, pid) && census[pid].ppid in s
      ensures pid in s
    {
      assert census[pid] in records;
    }
  }

  class OwnedProcessTracker {
    const rootPid: int
    var owned: Owned
    var rootStart: Option<string>
    var peakRssBytes: int
    var peakProcesses: int

    constructor (rootPid: int)
      requires rootPid >= 1
      ensures this.rootPid == rootPid && Fields() == State(map[], None, 0, 0)
    {
      this.rootPid := rootPid;
      owned, rootStart, peakRssBytes, peakProcesses := map[], None, 0, 0;
    }

    function Fields(): State
      reads this
    {
      State(owned, rootStart, peakRssBytes, peakProcesses)
    }

    predicate Owns(pid: int)
      reads this
    {
      pid in owned
    }

    /** Forgets owned identities that are gone or whose pid was reused, and owns the root. */
    method Forget(census: Census)
      requires WellFormed(census) && rootPid in census
      modifies `owned
      ensures owned.Keys == Seed(rootPid, old(owned), census)
      ensures forall pid :: pid in owned ==> pid in census && owned[pid] == census[pid].start
    {
      owned := map pid | pid in owned && pid in census && census[pid].start == owned[pid] :: owned[pid];
      owned := owned[rootPid := census[rootPid].start];
    }

    /** One pass over the records; adds children of owned processes as it meets them. */
    method Pass(records: seq<Process>, census: Census, ghost seed: set<int>, ghost tree: set<int>)
      returns (changed: bool)
      requires WellFormed(census) && Distinct(records) && census == ByPid(records)
      requires Least(tree, seed, census) && Growing(owned, seed, tree, census)
      modifies `owned
      ensures Growing(owned, seed, tree, census)
      ensures changed ==> |old(owned).Keys| < |owned.Keys|
      ensures !changed ==> owned == old(owned) && Closed(owned.Keys, census)
    {
      changed := false;
      for i := 0 to |records|
        invariant Growing(owned, seed, tree, census) && old(owned).Keys <= owned.Keys
        invariant changed ==> |old(owned).Keys| < |owned.Keys|
        invariant !changed ==> owned == old(owned) && ClosedSoFar(records[..i], owned.Keys, census)
      {
        var record := records[i];
        assert census[record.pid] == record;
        PrefixGrows(records, i);
        if record.pid !in owned && record.ppid in owned && record.ppid in census
           && owned[record.ppid] == census[record.ppid].start
           && Number(record.start) >= Number(census[record.ppid].start)
        {
          assert Child(census, record.pid);
          SubsetSize(old(owned).Keys, owned.Keys);
          assert owned[record.pid := record.start].Keys == owned.Keys + {record.pid};
          owned := owned[record.pid := record.start];
          changed := true;
        }
      }
      assert records[..|records|] == records;
      if !changed {
        PassedIsClosed(records, owned.Keys, census);
      }
    }

    method Total(census: Census) returns (rssBytes: int)
      requires owned.Keys <= census.Keys
      ensures rssBytes == Rss(owned.Keys, census)
    {
      rssBytes := 0;
      var rest := owned.Keys;
      while rest != {}
        invariant rest <= owned.Keys
        invariant rssBytes + Rss(rest, census) == Rss(owned.Keys, census)
      {
        NonEmpty(rest);
        var pid :| pid in rest;
        RssSplit(rest, pid, census);
        rssBytes := rssBytes + census[pid].rss;
        rest := rest - {pid};
      }
    }

    /** Passes over the records until nothing changes or the tree is oversized. */
    method Grow(records: seq<Process>, census: Census, ghost seed: set<int>, ghost tree: set<int>) returns (ok: bool)
      requires WellFormed(census) && Distinct(records) && census == ByPid(records)
      requires Least(tree, seed, census) && Growing(owned, seed, tree, census)
      modifies `owned
      ensures Growing(owned, seed, tree, census)
      ensures ok == (|tree| <= MAX_PROCESSES)
      ensures ok ==> owned.Keys == tree
    {
      var changed := true;
      while changed
        invariant Growing(owned, seed, tree, census)
        invariant !changed ==> Closed(owned.Keys, census) && |owned.Keys| <= MAX_PROCESSES
        decreases |tree| - |owned.Keys|, changed
      {
        changed := Pass(records, census, seed, tree);
        SubsetSize(owned.Keys, tree);
        if |owned.Keys| > MAX_PROCESSES {
          return false;
        }
      }
      assert tree <= owned.Keys;
      assert owned.Keys == tree;
      return true;
    }

    method Sample(records: seq<Process>) returns (r: Result<Report, Refusal>)
      modifies this
      ensures Samples(rootPid, old(Fields()), records, Fields(), r)
    {
      var accepted := Accepted(rootPid, rootStart, records);
      if accepted.Err? {
        return Err(accepted.error);
      }
      r := SampleCensus(records, accepted.value);
    }

    method SampleCensus(records: seq<Process>, census: Census) returns (r: Result<Report, Refusal>)
      requires WellFormed(census) && Distinct(records) && census == ByPid(records) && rootPid in census
      requires rootStart.Some? ==> rootStart.value == census[rootPid].start
      modifies this
      ensures SamplesTree(rootPid, old(Fields()), census, NowOwned(rootPid, old(owned), census), Fields(), r)
    {
      if rootStart.None? {
        rootStart := Some(census[rootPid].start);
      }
      ghost var seed, tree := Seed(rootPid, owned, census), NowOwned(rootPid, owned, census);
      ClosureIsLeast(seed, census);
      Forget(census);
      var ok := Grow(records, census, seed, tree);
      GrowingIsNamed(owned, seed, tree, census);
      if !ok {
        return Err(TooManyProcesses);
      }
      var rssBytes := Total(census);
      // The safe-integer check that follows in the source can never fail.
      MemoryTotalIsSafe(owned.Keys, census);
      peakRssBytes := Max(peakRssBytes, rssBytes);
      peakProcesses := Max(peakProcesses, |owned.Keys|);
      return Ok(Report(|owned.Keys|, rssBytes, peakRssBytes, peakProcesses));
    }
  }

  // ---- One sample ----

  /**
   A listed process that was not owned before is owned afterwards
   exactly when it is a proper child of another owned one.
   */
  lemma NewOwnerIsParent(rootPid: int, owned: Owned, census: Census, pid: int)
    requires WellFormed(census) && rootPid in census && pid in census
    requires pid !in Seed(rootPid, owned, census)
    ensures var tree := NowOwned(rootPid, owned, census);
            pid in tree <==> Child(census, pid) && census[pid].ppid in tree && census[pid].ppid != pid
  {
    var seed, tree := Seed(rootPid, owned, census), NowOwned(rootPid, owned, census);
    ClosureIsLeast(seed, census);
    if !(Child(census, pid) && census[pid].ppid in tree && census[pid].ppid != pid) {
      var t := tree - {pid};
      assert seed <= t && Closed(t, census);
    }
  }

  /** An owned process that is still listed stays owned, whatever parent it is listed under. */
  lemma OrphanStaysOwned(rootPid: int, before: State, records: seq<Process>, after: State, r: Result<Report, Refusal>,
                         pid: int)
    requires Samples(rootPid, before, records, after, r) && Accepted(rootPid, before.rootStart, records).Ok?
    requires pid in before.owned
    requires var census := Accepted(rootPid, before.rootStart, records).value;
             pid in census && census[pid].start == before.owned[pid]
    ensures pid in after.owned && after.owned[pid] == before.owned[pid]
  {
    var census := Accepted(rootPid, before.rootStart, records).value;
    ClosureIsLeast(Seed(rootPid, before.owned, census), census);
  }

  lemma {:induction false} ByPidUnique(a: seq<Process>, m: map<int, Process>)
    requires Distinct(a)
    requires forall pid :: pid in m ==> m[pid].pid == pid && m[pid] in a
    requires forall r :: r in a ==> r.pid in m
    ensures m == ByPid(a)
  {
    var b := ByPid(a);
    forall pid
      ensures pid in m <==> pid in b
      ensures pid in m ==> m[pid] == b[pid]
    {
      if pid in m {
        var i :| 0 <= i < |a| && a[i] == m[pid];
        assert a[i].pid in b;
      }
      if pid in b {
        assert b[pid] in a;
      }
    }
  }

  lemma DistinctHasNoRepeats(a: seq<Process>, i: int, j: int)
    requires Distinct(a) && 0 <= i < |a| && 0 <= j < |a| && a[i].pid == a[j].pid
    ensures i == j
  {
  }

  /** A permutation of a census without repeated pids has none either. */
  lemma {:induction false} DistinctPermutes(a: seq<Process>, b: seq<Process>)
    requires multiset(a) == multiset(b) && Distinct(a)
    ensures Distinct(b)
  {
    forall i, j | 0 <= i < j < |b|
      ensures b[i].pid != b[j].pid
    {
      if b[i].pid == b[j].pid {
        SameMembers(a, b);
        assert b[i] in a && b[j] in a;
        var k :| 0 <= k < |a| && a[k] == b[i];
        var l :| 0 <= l < |a| && a[l] == b[j];
        DistinctHasNoRepeats(a, k, l);
        TwiceInSequence(b, i, j);
        OnceInSequence(a, k);
      }
    }
  }

  lemma TwiceInSequence<T>(s: seq<T>, i: nat, j: nat)
    requires i < j < |s| && s[i] == s[j]
    ensures multiset(s)[s[i]] >= 2
  {
    assert s == s[..j] + [s[j]] + s[j + 1..];
    assert s[i] in s[..j];
    assert multiset(s) == multiset(s[..j]) + multiset{s[j]} + multiset(s[j + 1..]);
  }

  lemma OnceInSequence(s: seq<Process>, i: nat)
    requires Distinct(s) && i < |s|
    ensures multiset(s)[s[i]] == 1
  {
    assert s == s[..i] + [s[i]] + s[i + 1..];
    assert s[i] !in s[..i] && s[i] !in s[i + 1..];
    assert multiset(s) == multiset(s[..i]) + multiset{s[i]} + multiset(s[i + 1..]);
  }

  /** Neither the census a list stands for nor its refusal depends on the order of the list. */
  lemma AcceptedInAnyOrder(rootPid: int, rootStart: Option<string>, a: seq<Process>, b: seq<Process>)
    requires multiset(a) == multiset(b)
    ensures Accepted(rootPid, rootStart, a) == Accepted(rootPid, rootStart, b)
  {
    assert Parses(a) == Parses(b) by {
      if Parses(a) {
        ParsesPermutes(a, b);
      } else if Parses(b) {
        ParsesPermutes(b, a);
      }
    }
    assert Distinct(a) == Distinct(b) by {
      if Distinct(a) {
        DistinctPermutes(a, b);
      } else if Distinct(b) {
        DistinctPermutes(b, a);
      }
    }
    if Distinct(a) {
      assert ByPid(a) == ByPid(b) by {
        SameCensus(a, b);
      }
    }
  }

  lemma ParsesPermutes(a: seq<Process>, b: seq<Process>)
    requires multiset(a) == multiset(b) && Parses(a)
    ensures Parses(b)
  {
    assert |multiset(a)| == |multiset(b)|;
    SameMembers(a, b);
    forall i | 0 <= i < |b|
      ensures ValidRecord(b[i])
    {
      assert b[i] in a;
    }
  }

  lemma SameCensus(a: seq<Process>, b: seq<Process>)
    requires multiset(a) == multiset(b) && Distinct(a) && Distinct(b)
    ensures ByPid(a) == ByPid(b)
  {
    SameMembers(a, b);
    var m := ByPid(a);
    forall r | r in b
      ensures r.pid in m
    {
      assert r in a;
      var i :| 0 <= i < |a| && a[i] == r;
      assert a[i].pid in m;
    }
    ByPidUnique(b, m);
  }

  /**
   Neither the outcome of a sample nor, unless the tree is
   oversized, the tracker afterwards depends on census order.
   */
  lemma SampleInAnyOrder(rootPid: int, before: State, a: seq<Process>, b: seq<Process>,
                         afterA: State, afterB: State, ra: Result<Report, Refusal>, rb: Result<Report, Refusal>)
    requires multiset(a) == multiset(b)
    requires Samples(rootPid, before, a, afterA, ra) && Samples(rootPid, before, b, afterB, rb)
    ensures ra == rb
    ensures ra != Err(TooManyProcesses) ==> afterA == afterB
  {
    AcceptedInAnyOrder(rootPid, before.rootStart, a, b);
  }

  // ---- Which of two processes was born earlier ----

  /** `n` times ten, `k` times over. */
  function Shifted(n: int, k: nat): int {
    if k == 0 then n else 10 * Shifted(n, k - 1)
  }

  lemma {:induction false} ShiftedGrows(m: int, n: int, k: nat)
    ensures m < n ==> Shifted(m, k) + Shifted(1, k) <= Shifted(n, k)
    ensures Shifted(0, k) == 0 && Shifted(1, k) >= 1
  {
    if k > 0 {
      ShiftedGrows(m, n, k - 1);
    }
  }

  lemma DigitsSplit(a: string, b: string)
    requires AllDigits(a) && AllDigits(b)
    ensures AllDigits(a + b)
  {
  }

  /** Numbers are positional: what comes before is worth ten times as much for every digit that follows. */
  lemma {:induction false} NumberSplits(a: string, b: string)
    requires AllDigits(a) && AllDigits(b)
    ensures AllDigits(a + b) && Number(a + b) == Shifted(Number(a), |b|) + Number(b)
  {
    DigitsSplit(a, b);
    if b == [] {
      assert a + b == a;
    } else {
      var rest := b[..|b| - 1];
      assert (a + b)[..|a + b| - 1] == a + rest;
      NumberSplits(a, rest);
    }
  }

  lemma OneDigit(c: char)
    requires '0' <= c <= '9'
    ensures AllDigits([c]) && Number([c]) == c as int - '0' as int
  {
    assert [c][..0] == [];
    assert Number([]) == 0;
  }

  lemma {:induction false} NumberBound(a: string)
    requires AllDigits(a)
    ensures Number(a) < Shifted(1, |a|)
  {
    if a != [] {
      NumberBound(a[..|a| - 1]);
    }
  }

  /** The first digit and the rest. */
  lemma HeadAndRest(a: string)
    requires AllDigits(a) && a != []
    ensures AllDigits(a[1..]) && 0 <= Number(a[1..]) < Shifted(1, |a| - 1)
    ensures Number(a) == Shifted(a[0] as int - '0' as int, |a| - 1) + Number(a[1..])
  {
    assert a == [a[0]] + a[1..];
    OneDigit(a[0]);
    NumberSplits([a[0]], a[1..]);
    NumberBound(a[1..]);
  }

  /** At equal length, the order of numbers is the order of texts. */
  lemma {:induction false} EqualLengthOrder(a: string, b: string)
    requires AllDigits(a) && AllDigits(b) && |a| == |b|
    ensures Number(a) < Number(b) <==> TextOrder.Before(a, b)
  {
    if a != [] {
      HeadAndRest(a);
      HeadAndRest(b);
      EqualLengthOrder(a[1..], b[1..]);
      ShiftedGrows(a[0] as int - '0' as int, b[0] as int - '0' as int, |a| - 1);
      ShiftedGrows(b[0] as int - '0' as int, a[0] as int - '0' as int, |a| - 1);
    }
  }

  /** A number written without leading zeros. */
  function Trimmed(s: string): string {
    if s != [] && s[0] == '0' then Trimmed(s[1..]) else s
  }

  lemma {:induction false} TrimKeeps(s: string)
    requires AllDigits(s)
    ensures AllDigits(Trimmed(s)) && Number(Trimmed(s)) == Number(s)
    ensures Trimmed(s) != [] ==> Number(s) >= Shifted(1, |Trimmed(s)| - 1)
  {
    if s != [] {
      HeadAndRest(s);
      ShiftedGrows(0, 1, |s| - 1);
      if s[0] == '0' {
        TrimKeeps(s[1..]);
      } else {
        ShiftedGrows(1, s[0] as int - '0' as int, |s| - 1);
      }
    }
  }

  lemma {:induction false} MoreDigitsMore(m: nat, n: nat)
    requires m <= n
    ensures 1 <= Shifted(1, m) <= Shifted(1, n)
  {
    if m < n {
      MoreDigitsMore(m, n - 1);
    } else if m > 0 {
      MoreDigitsMore(m - 1, m - 1);
    }
  }

  /** Start `s` is no earlier than `t`: without leading zeros it is longer, or as long and not before it as text. */
  ghost predicate NoEarlier(s: string, t: string) {
    var a, b := Trimmed(s), Trimmed(t);
    |a| > |b| || (|a| == |b| && !TextOrder.Before(a, b))
  }

  lemma LongerIsLarger(a: string, b: string)
    requires AllDigits(a) && AllDigits(b) && |a| > |b| && Number(a) >= Shifted(1, |a| - 1)
    ensures Number(a) > Number(b)
  {
    NumberBound(b);
    MoreDigitsMore(|b|, |a| - 1);
  }

  lemma StartOrder(s: string, t: string)
    requires AllDigits(s) && AllDigits(t)
    ensures Number(s) >= Number(t) <==> NoEarlier(s, t)
  {
    var a, b := Trimmed(s), Trimmed(t);
    TrimKeeps(s);
    TrimKeeps(t);
    hide Trimmed;
    if |a| == |b| {
      EqualLengthOrder(a, b);
    } else if |a| > |b| {
      LongerIsLarger(a, b);
    } else {
      LongerIsLarger(b, a);
    }
  }

  /**
   After a sample, a listed process that was not owned already is owned exactly when the process listed as its
   parent is another owned one and was born no later.
   */
  lemma ChildrenAreOwned(rootPid: int, before: State, records: seq<Process>, after: State, r: Result<Report, Refusal>,
                         child: Process)
    requires Samples(rootPid, before, records, after, r) && r.Ok? && child in records
    requires child.pid != rootPid && !(child.pid in before.owned && before.owned[child.pid] == child.start)
    ensures child.pid in after.owned <==>
              exists parent :: parent in records && parent.pid == child.ppid != child.pid
                               && parent.pid in after.owned && NoEarlier(child.start, parent.start)
  {
    var census := Accepted(rootPid, before.rootStart, records).value;
    assert census[child.pid] == child;
    NewOwnerIsParent(rootPid, before.owned, census, child.pid);
    assert after.owned.Keys == NowOwned(rootPid, before.owned, census);
    if child.ppid in census {
      var parent := census[child.ppid];
      assert parent in records && ValidRecord(parent) && ValidRecord(child);
      StartOrder(child.start, parent.start);
    }
    forall parent | parent in records && parent.pid == child.ppid
      ensures child.ppid in census && census[child.ppid] == parent
    {
    }
  }

  /** A census is taken exactly when it is valid and lists the root, running as before and with memory. */
  lemma AcceptedExactlyWhen(rootPid: int, rootStart: Option<string>, records: seq<Process>)
    ensures Accepted(rootPid, rootStart, records).Ok? <==>
              && |records| <= 20000
              && (forall p :: p in records ==>
                    0 < p.pid <= 2147483647 && 0 <= p.ppid <= 2147483647 && 0 <= p.rss <= 8796093022208
                    && 1 <= |p.start| <= 40 && forall c :: c in p.start ==> c in "0123456789")
              && (forall i, j :: 0 <= i < |records| && 0 <= j < |records| && records[i].pid == records[j].pid ==>
                   i == j)
              && (exists root :: root in records && root.pid == rootPid && root.rss > 0
                                 && (rootStart.Some? ==> root.start == rootStart.value))
  {
    forall p: Process
      ensures AllDigits(p.start) <==> forall c :: c in p.start ==> c in "0123456789"
    {
      DigitCharacters(p.start);
    }
    if Distinct(records) {
      var census := ByPid(records);
    }
  }

  /** A tree of more than 1000 processes is refused, and only such a tree is refused for its size. */
  lemma OversizedIsRefused(rootPid: int, before: State, records: seq<Process>, after: State,
                           r: Result<Report, Refusal>)
    requires Samples(rootPid, before, records, after, r) && Accepted(rootPid, before.rootStart, records).Ok?
    ensures var tree := NowOwned(rootPid, before.owned, Accepted(rootPid, before.rootStart, records).value);
            if |tree| > 1000 then r == Err(TooManyProcesses) else r.Ok? && r.value.processCount == |tree|
  {
    hide NowOwned, Accepted;
  }

  lemma DigitCharacters(s: string)
    ensures AllDigits(s) <==> forall c :: c in s ==> c in "0123456789"
  {
    assert forall c :: c in "0123456789" <==> c in ['0', '1', '2', '3', '4', '5', '6', '7', '8', '9'];
    if AllDigits(s) {
      assert forall c :: c in s ==> '0' <= c <= '9';
    } else {
      var i :| 0 <= i < |s| && !('0' <= s[i] <= '9');
      assert s[i] in s;
    }
  }

  // ---- A whole life of samples ----

  /** A process identity: pid and start. */
  datatype Identity = Identity(pid: int, start: string)

  predicate Listed(census: Census, id: Identity) {
    id.pid in census && census[id.pid].start == id.start
  }

  /** `census` shows `child` with `parent` as its parent, born no earlier. */
  predicate Link(census: Census, parent: Identity, child: Identity) {
    && WellFormed(census)
    && Listed(census, parent) && Listed(census, child)
    && census[child.pid].ppid == parent.pid
    && Number(census[child.pid].start) >= Number(census[parent.pid].start)
  }

  ghost predicate LinkedIn(censuses: set<Census>, parent: Identity, child: Identity) {
    exists c :: c in censuses && Link(c, parent, child)
  }

  /** A chain of observed parent links from `root` to `id`. */
  ghost predicate Chain(censuses: set<Census>, root: Identity, path: seq<Identity>, id: Identity) {
    && path != []
    && path[0] == root
    && path[|path| - 1] == id
    && forall k :: 0 <= k < |path| - 1 ==> LinkedIn(censuses, path[k], path[k + 1])
  }

  ghost predicate Descends(censuses: set<Census>, root: Identity, id: Identity) {
    exists path :: Chain(censuses, root, path, id)
  }

  lemma DescendsFromMore(censuses: set<Census>, more: set<Census>, root: Identity, id: Identity)
    requires censuses <= more && Descends(censuses, root, id)
    ensures Descends(more, root, id)
  {
    var path :| Chain(censuses, root, path, id);
    forall k | 0 <= k < |path| - 1
      ensures LinkedIn(more, path[k], path[k + 1])
    {
      assert LinkedIn(censuses, path[k], path[k + 1]);
      var c :| c in censuses && Link(c, path[k], path[k + 1]);
      assert c in more;
    }
    assert Chain(more, root, path, id);
  }

  lemma ChildDescends(censuses: set<Census>, root: Identity, census: Census, parent: Identity, child: Identity)
    requires census in censuses && Link(census, parent, child) && Descends(censuses, root, parent)
    ensures Descends(censuses, root, child)
  {
    var path :| Chain(censuses, root, path, parent);
    var longer := path + [child];
    forall k | 0 <= k < |longer| - 1
      ensures LinkedIn(censuses, longer[k], longer[k + 1])
    {
      if k == |path| - 1 {
        assert longer[k] == parent && longer[k + 1] == child;
      } else {
        assert LinkedIn(censuses, path[k], path[k + 1]);
      }
    }
    assert Chain(censuses, root, longer, child);
  }

  datatype Sampled = Sampled(records: seq<Process>, result: Result<Report, Refusal>)

  /** `states[i + 1]` is the tracker after `samples[i]`; the tracker starts empty. */
  ghost predicate IsLife(rootPid: int, states: seq<State>, samples: seq<Sampled>) {
    && |states| == |samples| + 1
    && states[0] == State(map[], None, 0, 0)
    && forall i :: 0 <= i < |samples| ==>
         Samples(rootPid, states[i], samples[i].records, states[i + 1], samples[i].result)
  }

  /** The censuses accepted among the first `n` samples. */
  ghost function Observed(rootPid: int, states: seq<State>, samples: seq<Sampled>, n: nat): set<Census>
    requires n <= |samples| < |states|
  {
    if n == 0 then {}
    else
      var accepted := Accepted(rootPid, states[n - 1].rootStart, samples[n - 1].records);
      Observed(rootPid, states, samples, n - 1) + (if accepted.Ok? then {accepted.value} else {})
  }

  ghost predicate AllDescend(rootPid: int, state: State, censuses: set<Census>) {
    && (state.rootStart.None? ==> state.owned == map[])
    && (state.rootStart.Some? ==>
          forall pid :: pid in state.owned ==>
            Descends(censuses, Identity(rootPid, state.rootStart.value), Identity(pid, state.owned[pid])))
  }

  lemma TreeDescends(rootPid: int, before: State, census: Census, root: Identity, censuses: set<Census>)
    requires WellFormed(census) && rootPid in census && census in censuses
    requires root == Identity(rootPid, census[rootPid].start)
    requires forall pid :: pid in before.owned ==> Descends(censuses, root, Identity(pid, before.owned[pid]))
    ensures forall pid :: pid in NowOwned(rootPid, before.owned, census) ==>
              pid in census && Descends(censuses, root, Identity(pid, census[pid].start))
  {
    var seed := Seed(rootPid, before.owned, census);
    var t := set pid | pid in census && Descends(censuses, root, Identity(pid, census[pid].start));
    assert Chain(censuses, root, [root], root);
    assert seed <= t;
    forall pid | Child(census, pid) && census[pid].ppid in t
      ensures pid in t
    {
      var parent := Identity(census[pid].ppid, census[census[pid].ppid].start);
      ChildDescends(censuses, root, census, parent, Identity(pid, census[pid].start));
    }
    ClosureIsLeast(seed, census);
    assert NowOwned(rootPid, before.owned, census) <= t;
  }

  lemma SampleKeepsDescent(rootPid: int, before: State, records: seq<Process>, after: State, r: Result<Report, Refusal>,
                           censuses: set<Census>)
    requires AllDescend(rootPid, before, censuses) && Samples(rootPid, before, records, after, r)
    ensures var accepted := Accepted(rootPid, before.rootStart, records);
            AllDescend(rootPid, after, censuses + (if accepted.Ok? then {accepted.value} else {}))
  {
    var accepted := Accepted(rootPid, before.rootStart, records);
    if accepted.Ok? {
      var census := accepted.value;
      var more := censuses + {census};
      var root := Identity(rootPid, census[rootPid].start);
      forall pid | pid in before.owned
        ensures Descends(more, root, Identity(pid, before.owned[pid]))
      {
        DescendsFromMore(censuses, more, root, Identity(pid, before.owned[pid]));
      }
      TreeDescends(rootPid, before, census, root, more);
    } else {
      assert censuses + {} == censuses;
    }
  }

  /** Over any sequence of samples, every owned identity has a chain of observed parent links back to the root. */
  lemma {:induction false} OwnershipIsDescent(rootPid: int, states: seq<State>, samples: seq<Sampled>, n: nat)
    requires IsLife(rootPid, states, samples) && n <= |samples|
    ensures AllDescend(rootPid, states[n], Observed(rootPid, states, samples, n))
  {
    if n > 0 {
      OwnershipIsDescent(rootPid, states, samples, n - 1);
      SampleKeepsDescent(rootPid, states[n - 1], samples[n - 1].records, states[n], samples[n - 1].result,
                         Observed(rootPid, states, samples, n - 1));
    }
  }

  /** The reported peaks bound every earlier report. */
  lemma {:induction false} PeaksBoundReports(rootPid: int, states: seq<State>, samples: seq<Sampled>, i: nat, n: nat)
    requires IsLife(rootPid, states, samples) && i < n <= |samples| && samples[i].result.Ok?
    ensures samples[i].result.value.rssBytes <= states[n].peakRssBytes
    ensures samples[i].result.value.processCount <= states[n].peakProcesses
    decreases n
  {
    assert Samples(rootPid, states[n - 1], samples[n - 1].records, states[n], samples[n - 1].result);
    if i < n - 1 {
      PeaksBoundReports(rootPid, states, samples, i, n - 1);
    }
  }
}
