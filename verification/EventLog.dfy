/**
 The rotated event log of the managed runtime (apps/worker/src/managed-runtime.ts): events go to
 the current file, which is moved through three numbered archives when it reaches 1 MiB.
 The process can be killed between any two file-system calls.
 */
module EventLog {
  import opened Collections

  const LIMIT := 1048576

  /** File 0 is the current log; files 1 to 3 are the archives, 3 the oldest. */
  type Files = map<nat, seq<string>>

  function Size(lines: seq<string>): nat {
    if lines == [] then 0 else Size(lines[..|lines| - 1]) + |lines[|lines| - 1]|
  }

  function Lines(files: Files, k: nat): seq<string> {
    if k in files then files[k] else []
  }

  /** Everything still on disk, oldest first. */
  function Retained(files: Files): seq<string> {
    Lines(files, 3) + Lines(files, 2) + Lines(files, 1) + Lines(files, 0)
  }

  predicate Suffix(s: seq<string>, history: seq<string>) {
    |s| <= |history| && s == history[|history| - |s|..]
  }

  predicate Due(files: Files) {
    0 in files && Size(files[0]) >= LIMIT
  }

  /** `rename`: an existing target is replaced. */
  function Move(files: Files, from: nat, to: nat): Files
    requires from != to
  {
    if from in files then (files - {from})[to := files[from]] else files
  }

  /** The disk after the first `n` of the five calls that record `line`; 5 is the whole event. */
  function Stage(files: Files, line: string, n: nat): Files {
    var f1 := if Due(files) && n >= 1 then files - {3} else files;
    var f2 := if Due(files) && n >= 2 then Move(f1, 2, 3) else f1;
    var f3 := if Due(files) && n >= 3 then Move(f2, 1, 2) else f2;
    var f4 := if Due(files) && n >= 4 then Move(f3, 0, 1) else f3;
    if n >= 5 then f4[0 := Lines(f4, 0) + [line]] else f4
  }

  class Log {
    var files: Files

    constructor (files: Files)
      ensures this.files == files
    {
      this.files := files;
    }

    /** The target holds the source's lines, the source is gone, every other file is as it was. */
    method Rename(from: nat, to: nat)
      requires from in files && from != to
      modifies this
      ensures to in files && files[to] == old(files)[from] && from !in files
      ensures forall k :: k != from && k != to ==> (k in files <==> k in old(files))
      ensures forall k :: k != from && k != to && k in files ==> files[k] == old(files)[k]
    {
      files := (files - {from})[to := files[from]];
    }

    /** Records one event; the process is killed once `calls` of its five calls are done. */
    method Event(line: string, calls: nat) returns (survived: bool)
      modifies this
      ensures files == Stage(old(files), line, calls)
      ensures survived == (calls >= 5)
    {
      survived := false;
      if Due(files) {
        if calls < 1 { return; }
        files := files - {3};
        for index := 3 downto 1
          invariant calls >= 4 - index
          invariant Due(old(files))
          invariant files == Stage(old(files), line, 4 - index)
        {
          if calls < 4 - index { return; }
          if index in files {
            ghost var before := files;
            Rename(index, index + 1);
            assert files == Move(before, index, index + 1);
          }
        }
        if calls < 4 { return; }
        ghost var before := files;
        Rename(0, 1);
        assert files == Move(before, 0, 1);
      }
      if calls < 5 { return; }
      files := files[0 := Lines(files, 0) + [line]];
      survived := true;
    }
  }

  // ---- Whole histories ----

  /** One attempt to record a line, killed after `calls` calls when that is below five. */
  datatype Attempt = Attempt(line: string, calls: nat)

  function After(files: Files, attempts: seq<Attempt>): Files {
    if attempts == [] then files
    else
      var rest, last := attempts[..|attempts| - 1], attempts[|attempts| - 1];
      Stage(After(files, rest), last.line, last.calls)
  }

  /** The lines whose recording was not cut short. */
  function History(attempts: seq<Attempt>): seq<string> {
    if attempts == [] then []
    else
      var rest, last := attempts[..|attempts| - 1], attempts[|attempts| - 1];
      History(rest) + (if last.calls >= 5 then [last.line] else [])
  }

  lemma SuffixTransitive(a: seq<string>, b: seq<string>, c: seq<string>)
    requires Suffix(a, b) && Suffix(b, c)
    ensures Suffix(a, c)
  {
    assert a == c[|c| - |b|..][|b| - |a|..];
  }

  lemma SuffixExtends(a: seq<string>, b: seq<string>, more: seq<string>)
    requires Suffix(a, b)
    ensures Suffix(a + more, b + more)
  {
    assert b == b[..|b| - |a|] + a;
    assert b + more == b[..|b| - |a|] + (a + more);
  }

  lemma DropsOldest(oldest: seq<string>, rest: seq<string>)
    ensures Suffix(rest, oldest + rest)
  {
  }

  /** Where the four files' lines are after `n` calls of a rotating event. */
  lemma RotationMovesLines(files: Files, line: string, n: nat)
    requires Due(files) && n >= 1
    ensures var f := Stage(files, line, n);
            && Lines(f, 3) == (if n >= 2 then Lines(files, 2) else [])
            && Lines(f, 2) == (if n >= 3 then Lines(files, 1) else if n >= 2 then [] else Lines(files, 2))
            && Lines(f, 1) == (if n >= 4 then Lines(files, 0) else if n >= 3 then [] else Lines(files, 1))
            && Lines(f, 0) == (if n >= 5 then [line] else if n >= 4 then [] else Lines(files, 0))
  {
  }

  lemma RotationDropsOldest(files: Files, line: string, n: nat)
    requires Due(files) && n >= 1
    ensures Retained(files) == Lines(files, 3) + (Lines(files, 2) + Lines(files, 1) + Lines(files, 0))
    ensures Retained(Stage(files, line, n))
         == (Lines(files, 2) + Lines(files, 1) + Lines(files, 0)) + (if n >= 5 then [line] else [])
  {
    RotationMovesLines(files, line, n);
  }

  lemma AppendOnly(files: Files, line: string, n: nat)
    requires !Due(files) || n == 0
    ensures Retained(Stage(files, line, n)) == Retained(files) + (if n >= 5 then [line] else [])
  {
  }

  /** Between any two calls the disk holds the newest lines, in order, and nothing else. */
  lemma StageKeepsNewest(files: Files, line: string, n: nat)
    ensures Suffix(Retained(Stage(files, line, n)), Retained(files) + (if n >= 5 then [line] else []))
  {
    if Due(files) && n >= 1 {
      var tail := Lines(files, 2) + Lines(files, 1) + Lines(files, 0);
      RotationDropsOldest(files, line, n);
      DropsOldest(Lines(files, 3), tail);
      SuffixExtends(tail, Retained(files), if n >= 5 then [line] else []);
    } else {
      AppendOnly(files, line, n);
    }
  }

  /** Whatever is killed when, the disk is a suffix of what was there before plus every completed event. */
  lemma {:induction false} RetainsNewest(files: Files, attempts: seq<Attempt>)
    ensures Suffix(Retained(After(files, attempts)), Retained(files) + History(attempts))
  {
    if attempts == [] {
      assert Retained(files) + [] == Retained(files);
    } else {
      var rest, last := attempts[..|attempts| - 1], attempts[|attempts| - 1];
      var added := if last.calls >= 5 then [last.line] else [];
      RetainsNewest(files, rest);
      StageKeepsNewest(After(files, rest), last.line, last.calls);
      SuffixExtends(Retained(After(files, rest)), Retained(files) + History(rest), added);
      Associate(Retained(files), History(rest), added);
      SuffixTransitive(Retained(After(files, attempts)), Retained(After(files, rest)) + added,
                       Retained(files) + History(attempts));
    }
  }

  /** Archives fill in order and only with files that had reached the limit. */
  predicate Stacked(files: Files) {
    && (3 in files ==> 2 in files)
    && (2 in files ==> 1 in files)
    && (forall k :: k in {1, 2, 3} && k in files ==> Size(files[k]) >= LIMIT)
  }

  predicate FullArchives(files: Files) {
    Stacked(files) && 3 in files
  }

  /** The promise: nothing has been dropped, or all three archives are full. */
  predicate Promise(files: Files, attempts: seq<Attempt>) {
    Retained(After(files, attempts)) == Retained(files) + History(attempts) || FullArchives(After(files, attempts))
  }

  /**
   A kill after `calls` calls is harmless unless it falls inside a rotation that had something to move:
   after call 1, 2 or 3 removed or renamed archive 3, 2 or 1.
   */
  predicate Harmless(files: Files, calls: nat) {
    !Due(files) || calls == 0 || calls >= 4 || 4 - calls !in files
  }

  /** Every attempt is harmless on the files it finds. */
  predicate AllHarmless(files: Files, attempts: seq<Attempt>) {
    attempts == [] ||
    (AllHarmless(files, attempts[..|attempts| - 1])
     && Harmless(After(files, attempts[..|attempts| - 1]), attempts[|attempts| - 1].calls))
  }

  lemma HarmlessStays(files: Files, line: string, n: nat)
    requires Stacked(files) && Harmless(files, n)
    ensures Stacked(Stage(files, line, n))
    ensures FullArchives(files) ==> FullArchives(Stage(files, line, n))
    ensures Retained(Stage(files, line, n)) == Retained(files) + (if n >= 5 then [line] else [])
            || FullArchives(Stage(files, line, n))
  {
    if !Due(files) || n == 0 {
      AppendOnly(files, line, n);
    } else if n < 4 {
      assert Stage(files, line, n) == files;
    } else {
      RotationStays(files, line, n);
    }
  }

  /** A rotation that gets past its last rename. */
  lemma RotationStays(files: Files, line: string, n: nat)
    requires Stacked(files) && Due(files) && n >= 4
    ensures Stacked(Stage(files, line, n))
    ensures FullArchives(files) ==> FullArchives(Stage(files, line, n))
    ensures Retained(Stage(files, line, n)) == Retained(files) + (if n >= 5 then [line] else [])
         || FullArchives(Stage(files, line, n))
  {
    assert 1 in Stage(files, line, n) && (2 in Stage(files, line, n) <==> 1 in files);
    assert 3 in Stage(files, line, n) <==> 2 in files;
    RotationMovesLines(files, line, n);
    RotationDropsOldest(files, line, n);
    hide Stage, Size;
    if 3 !in files {
      assert Lines(files, 3) == [];
    }
  }

  lemma {:induction false} HarmlessKeepsPromise(files: Files, attempts: seq<Attempt>)
    requires Stacked(files) && AllHarmless(files, attempts)
    ensures Stacked(After(files, attempts)) && Promise(files, attempts)
  {
    if attempts == [] {
      assert Retained(files) + [] == Retained(files);
    } else {
      var rest, last := attempts[..|attempts| - 1], attempts[|attempts| - 1];
      HarmlessKeepsPromise(files, rest);
      HarmlessStays(After(files, rest), last.line, last.calls);
      Associate(Retained(files), History(rest), if last.calls >= 5 then [last.line] else []);
    }
  }

  /**
   With full archives, an event keeps them full exactly when it is
   not killed between its first call and its last rename.
   */
  lemma ArchivesStayFullWhen(files: Files, line: string, n: nat)
    requires FullArchives(files)
    ensures FullArchives(Stage(files, line, n)) <==> !Due(files) || n == 0 || n >= 4
  {
    if Harmless(files, n) {
      HarmlessStays(files, line, n);
    }
  }

  /** As soon as harmless attempts have dropped anything, the three archives hold at least 3 MiB. */
  lemma DropsOnlyWhenFull(files: Files, attempts: seq<Attempt>)
    requires Stacked(files) && AllHarmless(files, attempts)
    requires Retained(After(files, attempts)) != Retained(files) + History(attempts)
    ensures var f := After(files, attempts);
            Size(Lines(f, 1)) + Size(Lines(f, 2)) + Size(Lines(f, 3)) >= 3 * LIMIT
  {
    HarmlessKeepsPromise(files, attempts);
  }

  /** `n` events recorded without a kill, each of them as long as a full file. */
  function LongEvents(n: nat): seq<Attempt> {
    if n == 0 then [] else LongEvents(n - 1) + [Attempt(LongLine(), 5)]
  }

  function LongLine(): (line: string)
    ensures |line| == LIMIT
  {
    seq(LIMIT, i => 'x')
  }

  predicate Complete(attempts: seq<Attempt>) {
    forall a :: a in attempts ==> a.calls >= 5
  }

  /** What is on disk after a kill and `k` long events, and how many lines were recorded. */
  lemma {:induction false} AfterKill(files: Files, killed: Attempt, k: nat)
    requires killed.calls < 5
    ensures Complete(LongEvents(k)) && |History([killed] + LongEvents(k))| == k
    ensures After(files, [killed] + LongEvents(0)) == Stage(files, killed.line, killed.calls)
    ensures k > 0 ==>
              After(files, [killed] + LongEvents(k))
              == Stage(After(files, [killed] + LongEvents(k - 1)), LongLine(), 5)
  {
    hide Stage, LongLine, Size;
    assert [killed] + LongEvents(0) == [killed] && [killed][..0] == [];
    assert After(files, [killed]) == Stage(After(files, []), killed.line, killed.calls);
    if k > 0 {
      AfterKill(files, killed, k - 1);
      var all := [killed] + LongEvents(k);
      assert all[..|all| - 1] == [killed] + LongEvents(k - 1);
    }
  }

  /** A rotation recording a long line, in terms of the lines of the four files; the next one is due again. */
  lemma LongEventRotates(files: Files)
    requires Due(files)
    ensures var f := Stage(files, LongLine(), 5);
            && Lines(f, 3) == Lines(files, 2) && Lines(f, 2) == Lines(files, 1) && Lines(f, 1) == Lines(files, 0)
            && Lines(f, 0) == [LongLine()] && Due(f)
  {
    RotationMovesLines(files, LongLine(), 5);
    var f := Stage(files, LongLine(), 5);
    assert [LongLine()][..0] == [];
    assert Size(Lines(f, 0)) == Size([]) + |LongLine()|;
  }

  function Count(files: Files): nat {
    |Lines(files, 3)| + |Lines(files, 2)| + |Lines(files, 1)| + |Lines(files, 0)|
  }

  lemma RetainedCount(files: Files)
    ensures |Retained(files)| == Count(files)
  {
  }

  /** What a harmful kill leads to: an empty oldest archive and lost lines. */
  ghost predicate Broken(files: Files, end: Files, recorded: nat) {
    Lines(end, 3) == [] && Count(end) < Count(files) + recorded
  }

  lemma HarmfulEnds(files: Files, line: string, n: nat)
    requires Stacked(files) && !Harmless(files, n)
    ensures var f0 := Stage(files, line, n); var f1 := Stage(f0, LongLine(), 5);
            Broken(files, if n == 1 then f0 else if n == 2 then f1 else Stage(f1, LongLine(), 5), n - 1)
  {
    var f0 := Stage(files, line, n);
    RotationMovesLines(files, line, n);
    assert files[4 - n] != [];
    assert 0 in f0 && f0[0] == files[0];
    hide Stage, LongLine;
    if n > 1 {
      LongEventRotates(f0);
      if n == 3 {
        LongEventRotates(Stage(f0, LongLine(), 5));
      }
    }
  }

  lemma HarmfulKillBreaks(files: Files, line: string, n: nat)
    requires Stacked(files) && !Harmless(files, n)
    ensures Complete(LongEvents(n - 1)) && !Promise(files, [Attempt(line, n)] + LongEvents(n - 1))
  {
    hide Stage, LongLine, Retained, After, LongEvents, History, Lines, Count;
    var killed := Attempt(line, n);
    HarmfulEnds(files, line, n);
    AfterKill(files, killed, n - 1);
    AfterKill(files, killed, 0);
    AfterKill(files, killed, 1);
    var end := After(files, [killed] + LongEvents(n - 1));
    RetainedCount(files);
    RetainedCount(end);
    EmptyOldest(end);
  }

  lemma EmptyOldest(files: Files)
    requires Lines(files, 3) == []
    ensures !FullArchives(files)
  {
  }

  /**
   The exact condition: a kill can never cost the promise, whatever is recorded afterwards, exactly when
   it is harmless.
   */
  lemma PromiseSurvivesExactly(files: Files, line: string, n: nat)
    requires Stacked(files)
    ensures Harmless(files, n) ==> forall later :: Complete(later) ==> Promise(files, [Attempt(line, n)] + later)
    ensures !Harmless(files, n) ==> exists later :: Complete(later) && !Promise(files, [Attempt(line, n)] + later)
  {
    if Harmless(files, n) {
      forall later | Complete(later)
        ensures Promise(files, [Attempt(line, n)] + later)
      {
        ThenComplete(files, Attempt(line, n), later);
        HarmlessKeepsPromise(files, [Attempt(line, n)] + later);
      }
    } else {
      HarmfulKillBreaks(files, line, n);
    }
  }

  lemma {:induction false} ThenComplete(files: Files, first: Attempt, later: seq<Attempt>)
    requires Harmless(files, first.calls) && Complete(later)
    ensures AllHarmless(files, [first] + later)
  {
    if later == [] {
      assert [first] + later == [first] && [first][..0] == [];
      assert AllHarmless(files, []);
    } else {
      var rest, all := later[..|later| - 1], [first] + later;
      assert forall a :: a in rest ==> a in later;
      ThenComplete(files, first, rest);
      assert all[..|all| - 1] == [first] + rest;
      hide Harmless, After;
      assert all[|all| - 1] == later[|later| - 1] && later[|later| - 1] in later;
    }
  }

  /**
   The shortest loss: with full archives, a kill after the first
   rename and one event later a whole extra file is gone.
   */
  lemma KillCostsAnArchive(files: Files, line: string, next: string)
    requires FullArchives(files) && Due(files)
    ensures var f := After(files, [Attempt(line, 2), Attempt(next, 5)]);
            && Lines(f, 3) == []
            && Retained(f) == Lines(files, 1) + Lines(files, 0) + [next]
  {
    hide Size;
    var killed := Stage(files, line, 2);
    RotationMovesLines(files, line, 2);
    assert Due(killed) && killed[0] == files[0];
    RotationMovesLines(killed, next, 5);
    TwoAttempts(files, Attempt(line, 2), Attempt(next, 5));
  }

  lemma TwoAttempts(files: Files, first: Attempt, second: Attempt)
    ensures After(files, [first, second]) == Stage(Stage(files, first.line, first.calls), second.line, second.calls)
  {
    hide Stage;
    assert [first, second][..1] == [first] && [first][..0] == [];
    assert After(files, [first]) == Stage(After(files, []), first.line, first.calls);
  }

  // ---- How much is on disk ----

  /** The contents of a file. */
  ghost function Contents(lines: seq<string>): string {
    if lines == [] then "" else Contents(lines[..|lines| - 1]) + lines[|lines| - 1]
  }

  lemma {:induction false} SizeIsLength(lines: seq<string>)
    ensures Size(lines) == |Contents(lines)|
  {
    if lines != [] {
      SizeIsLength(lines[..|lines| - 1]);
    }
  }

  lemma {:induction false} ContentsSplit(a: seq<string>, b: seq<string>)
    ensures Contents(a + b) == Contents(a) + Contents(b)
  {
    if b == [] {
      assert a + b == a;
    } else {
      assert (a + b)[..|a + b| - 1] == a + b[..|b| - 1];
      ContentsSplit(a, b[..|b| - 1]);
    }
  }

  /**
   A completed event moves every archive one place on, and the current log with them, exactly when the current log
   has reached 1 MiB; otherwise it leaves the archives alone. The new line comes last in either case.
   */
  lemma RotatesExactlyWhen(files: Files, line: string)
    ensures var f := Stage(files, line, 5);
            if |Contents(Lines(files, 0))| >= 1048576 then
              && Lines(f, 3) == Lines(files, 2) && Lines(f, 2) == Lines(files, 1) && Lines(f, 1) == Lines(files, 0)
              && Lines(f, 0) == [line]
            else
              && Lines(f, 3) == Lines(files, 3) && Lines(f, 2) == Lines(files, 2) && Lines(f, 1) == Lines(files, 1)
              && Lines(f, 0) == Lines(files, 0) + [line]
  {
    SizeIsLength(Lines(files, 0));
    if Due(files) {
      RotationMovesLines(files, line, 5);
    }
  }

  /** After a completed event the current log is shorter than 1 MiB and the new line. */
  lemma CurrentStaysShort(files: Files, line: string)
    ensures |Contents(Lines(Stage(files, line, 5), 0))| < 1048576 + |line|
  {
    RotatesExactlyWhen(files, line);
    ContentsSplit(Lines(files, 0), [line]);
    assert [line][..0] == [] && Contents([]) == "";
    assert Contents([line]) == Contents([line][..0]) + line;
  }

  /** No file holds more than 1 MiB and one line of at most `longest` characters. */
  ghost predicate Bounded(files: Files, longest: nat) {
    forall k :: 0 <= k <= 3 ==> |Contents(Lines(files, k))| < 1048576 + longest
  }

  lemma StageStaysBounded(files: Files, line: string, n: nat, longest: nat)
    requires Bounded(files, longest) && |line| <= longest && longest > 0
    ensures Bounded(Stage(files, line, n), longest)
  {
    var f := Stage(files, line, n);
    SizeIsLength(Lines(files, 0));
    ContentsSplit(Lines(files, 0), [line]);
    assert [line][..0] == [] && Contents([]) == "";
    assert Contents([line]) == Contents([line][..0]) + line;
    if Due(files) && n >= 1 {
      RotationMovesLines(files, line, n);
    }
    hide Contents, Size;
    assert Contents([]) == "";
    forall k | 0 <= k <= 3
      ensures |Contents(Lines(f, k))| < 1048576 + longest
    {
      assert |Contents(Lines(files, k))| < 1048576 + longest;
      assert k != 0 ==> Lines(f, k) in [Lines(files, 0), Lines(files, 1), Lines(files, 2), Lines(files, 3), []];
    }
  }

  /**
   Over any history of lines of at most `longest` characters, killed at any points, nothing on disk outgrows four
   files of 1 MiB and a line.
   */
  lemma {:induction false} DiskStaysBounded(files: Files, attempts: seq<Attempt>, longest: nat)
    requires Bounded(files, longest) && longest > 0 && forall a :: a in attempts ==> |a.line| <= longest
    ensures Bounded(After(files, attempts), longest)
    ensures |Contents(Retained(After(files, attempts)))| < 4 * (1048576 + longest)
  {
    hide Stage, Contents, Lines;
    if attempts != [] {
      var rest, last := attempts[..|attempts| - 1], attempts[|attempts| - 1];
      assert last in attempts && forall a :: a in rest ==> a in attempts;
      DiskStaysBounded(files, rest, longest);
      StageStaysBounded(After(files, rest), last.line, last.calls, longest);
    }
    var f := After(files, attempts);
    hide Bounded;
    RetainedLength(f);
    assert Bounded(f, longest);
    FourFiles(f, longest);
  }

  lemma RetainedLength(files: Files)
    ensures |Contents(Retained(files))| == |Contents(Lines(files, 0))| + |Contents(Lines(files, 1))|
                                           + |Contents(Lines(files, 2))| + |Contents(Lines(files, 3))|
  {
    var a, b, c, d := Lines(files, 3), Lines(files, 2), Lines(files, 1), Lines(files, 0);
    ContentsSplit(a, b);
    ContentsSplit(a + b, c);
    ContentsSplit(a + b + c, d);
    hide Contents, Lines;
  }

  lemma FourFiles(files: Files, longest: nat)
    requires Bounded(files, longest)
    ensures |Contents(Lines(files, 0))| + |Contents(Lines(files, 1))| + |Contents(Lines(files, 2))|
            + |Contents(Lines(files, 3))| < 4 * (1048576 + longest)
  {
    hide Contents, Lines;
    assert forall k :: k in {0, 1, 2, 3} ==> |Contents(Lines(files, k))| < 1048576 + longest;
  }
}
