/**
 Two pieces of the runtime supervisor (apps/worker/src/runtime-supervisor.ts): the sliding-window
 restart budget with its backoff, and the framer that cuts child output into lines.
 */
module RuntimeSupervisor {
  import opened Collections

  // ---- Restart budget ----

  /** The entries left once every leading entry at least `window` old is shifted out. */
  function Prune(queue: seq<int>, now: int, window: int): seq<int> {
    if queue != [] && now - queue[0] >= window then Prune(queue[1..], now, window) else queue
  }

  /** The restarts of the last `window` milliseconds, whatever the order of `history`. */
  function Recent(history: seq<int>, now: int, window: int): seq<int> {
    if history == [] then []
    else
      var rest, last := history[..|history| - 1], history[|history| - 1];
      Recent(rest, now, window) + (if now - last < window then [last] else [])
  }

  predicate NonDecreasing(times: seq<int>) {
    forall i, j :: 0 <= i < j < |times| ==> times[i] <= times[j]
  }

  class RestartBudget {
    const limit: nat
    const window: int
    var restarts: seq<int>

    constructor (limit: nat, window: int)
      ensures this.limit == limit && this.window == window && restarts == []
    {
      this.limit := limit;
      this.window := window;
      restarts := [];
    }

    /** Asks for one restart at time `now`; refused when the window is already full. */
    method Admit(now: int) returns (ok: bool)
      modifies this
      ensures ok == (|Prune(old(restarts), now, window)| < limit)
      ensures restarts == Prune(old(restarts), now, window) + (if ok then [now] else [])
    {
      while |restarts| > 0 && now - restarts[0] >= window
        invariant Prune(restarts, now, window) == Prune(old(restarts), now, window)
        decreases |restarts|
      {
        restarts := restarts[1..];
      }
      if |restarts| >= limit {
        return false;
      }
      restarts := restarts + [now];
      return true;
    }

    /** Milliseconds to wait after the restart just admitted. */
    function Backoff(backoffMs: nat): nat
      reads this
    {
      BackoffAfter(|restarts|, backoffMs)
    }
  }

  function Doubled(n: nat): nat {
    if n == 0 then 1 else 2 * Doubled(n - 1)
  }

  function BackoffAfter(restart: nat, backoffMs: nat): nat {
    var wait := backoffMs * Doubled(if restart == 0 then 0 else restart - 1);
    if wait < 60000 then wait else 60000
  }

  /** All restarts admitted over the life of the supervisor, the queue kept, and whether it gave up. */
  datatype Supervision = Supervision(history: seq<int>, queue: seq<int>, exhausted: bool)

  /** The supervisor after restart requests at `times`; it stops at the first refusal. */
  function Supervise(times: seq<int>, limit: nat, window: int): Supervision {
    if times == [] then Supervision([], [], false)
    else
      var rest, now := times[..|times| - 1], times[|times| - 1];
      var s := Supervise(rest, limit, window);
      var queue := Prune(s.queue, now, window);
      if s.exhausted then s
      else if |queue| >= limit then Supervision(s.history, queue, true)
      else Supervision(s.history + [now], queue + [now], false)
  }

  lemma {:induction false} RecentTail(history: seq<int>, k: nat, now: int, window: int)
    requires k <= |history|
    requires forall i :: 0 <= i < k ==> now - history[i] >= window
    requires forall i :: k <= i < |history| ==> now - history[i] < window
    ensures Recent(history, now, window) == history[k..]
  {
    if history != [] {
      var rest, last := history[..|history| - 1], history[|history| - 1];
      if k == |history| {
        RecentTail(rest, k - 1, now, window);
      } else {
        RecentTail(rest, k, now, window);
        assert history[k..] == rest[k..] + [last];
      }
    }
  }

  /** Shifting from the front leaves a tail whose first entry, if any, is still young. */
  lemma {:induction false} PruneIsTail(queue: seq<int>, now: int, window: int) returns (k: nat)
    ensures k <= |queue| && Prune(queue, now, window) == queue[k..]
    ensures forall i :: 0 <= i < k ==> now - queue[i] >= window
    ensures k < |queue| ==> now - queue[k] < window
  {
    if queue != [] && now - queue[0] >= window {
      var j := PruneIsTail(queue[1..], now, window);
      k := j + 1;
      assert queue[1..][j..] == queue[k..];
      forall i | 0 <= i < k
        ensures now - queue[i] >= window
      {
        assert i > 0 ==> queue[i] == queue[1..][i - 1];
      }
    } else {
      k := 0;
      assert queue[0..] == queue;
    }
  }

  /** `queue` is a tail of `history`, and everything before it had left the window by `now`. */
  ghost predicate Tracks(history: seq<int>, queue: seq<int>, now: int, window: int) {
    && |queue| <= |history|
    && queue == history[|history| - |queue|..]
    && forall i :: 0 <= i < |history| - |queue| ==> now - history[i] >= window
  }

  ghost predicate NoLaterThan(history: seq<int>, now: int) {
    forall i :: 0 <= i < |history| ==> history[i] <= now
  }

  lemma PrunedQueueIsRecent(history: seq<int>, queue: seq<int>, before: int, now: int, window: int)
    requires Tracks(history, queue, before, window) && before <= now
    requires NonDecreasing(history)
    ensures Prune(queue, now, window) == Recent(history, now, window)
    ensures Tracks(history, Prune(queue, now, window), now, window)
  {
    var k := PruneIsTail(queue, now, window);
    var dropped := |history| - |queue|;
    assert history[dropped..][k..] == history[dropped + k..];
    forall i | 0 <= i < dropped + k
      ensures now - history[i] >= window
    {
      if i >= dropped {
        assert history[i] == queue[i - dropped];
      }
    }
    if k < |queue| {
      assert history[dropped + k] == queue[k];
    }
    RecentTail(history, dropped + k, now, window);
  }

  /** Any `limit + 1` consecutive admitted restarts span at least the window. */
  ghost predicate Spaced(history: seq<int>, limit: nat, window: int) {
    forall i :: 0 <= i && i + limit < |history| ==> history[i + limit] - history[i] >= window
  }

  /** What the supervisor knows after a request at time `now`. */
  ghost predicate Sound(history: seq<int>, queue: seq<int>, now: int, limit: nat, window: int) {
    && Tracks(history, queue, now, window)
    && NoLaterThan(history, now)
    && NonDecreasing(history)
    && |queue| <= limit
    && Spaced(history, limit, window)
  }

  lemma PruneKeepsSound(history: seq<int>, queue: seq<int>, before: int, now: int, limit: nat, window: int)
    requires Sound(history, queue, before, limit, window) && before <= now
    ensures Sound(history, Prune(queue, now, window), now, limit, window)
  {
    PrunedQueueIsRecent(history, queue, before, now, window);
    var k := PruneIsTail(queue, now, window);
  }

  lemma PushSpaced(history: seq<int>, queue: seq<int>, now: int, limit: nat, window: int)
    requires Sound(history, queue, now, limit, window) && |queue| < limit
    ensures Spaced(history + [now], limit, window)
  {
    var grown := history + [now];
    forall i | 0 <= i && i + limit < |grown|
      ensures grown[i + limit] - grown[i] >= window
    {
      if i + limit < |history| {
        assert history[i + limit] - history[i] >= window;
      } else {
        assert i == |history| - limit < |history| - |queue|;
        assert now - history[i] >= window;
      }
    }
  }

  lemma PushKeepsSound(history: seq<int>, queue: seq<int>, now: int, limit: nat, window: int)
    requires Sound(history, queue, now, limit, window) && |queue| < limit
    ensures Sound(history + [now], queue + [now], now, limit, window)
  {
    PushSpaced(history, queue, now, limit, window);
    assert (history + [now])[|history| - |queue|..] == queue + [now];
  }

  lemma {:induction false} SuperviseSound(times: seq<int>, limit: nat, window: int)
    requires NonDecreasing(times) && times != [] && window > 0
    ensures var s := Supervise(times, limit, window); Sound(s.history, s.queue, times[|times| - 1], limit, window)
  {
    var rest, now := times[..|times| - 1], times[|times| - 1];
    var s := Supervise(rest, limit, window);
    var before := if rest == [] then now else rest[|rest| - 1];
    if rest != [] {
      SuperviseSound(rest, limit, window);
      assert before == times[|times| - 2] <= now;
    }
    var queue := Prune(s.queue, now, window);
    PruneKeepsSound(s.history, s.queue, before, now, limit, window);
    if s.exhausted {
      Later(s.history, s.queue, before, now, limit, window);
    } else if |queue| < limit {
      PushKeepsSound(s.history, queue, now, limit, window);
    }
  }

  lemma Later(history: seq<int>, queue: seq<int>, before: int, now: int, limit: nat, window: int)
    requires Sound(history, queue, before, limit, window) && before <= now
    ensures Sound(history, queue, now, limit, window)
  {
  }

  /**
   With a clock that never runs backwards, the pruned queue is exactly the restarts of the last
   window, the supervisor gives up exactly when that window already holds `limit` of them, and any
   `limit + 1` consecutive restarts span at least the window.
   */
  lemma BudgetIsExact(times: seq<int>, now: int, limit: nat, window: int)
    requires NonDecreasing(times + [now]) && window > 0
    requires !Supervise(times, limit, window).exhausted
    ensures var s, s' := Supervise(times, limit, window), Supervise(times + [now], limit, window);
            && Prune(s.queue, now, window) == Recent(times, now, window)
            && s.history == times
            && (s'.exhausted <==> |Recent(times, now, window)| >= limit)
            && Spaced(s'.history, limit, window)
  {
    var all := times + [now];
    assert all[..|all| - 1] == times;
    SuperviseSound(all, limit, window);
    HistoryIsRequests(times, limit, window);
    if times != [] {
      assert NonDecreasing(times) by {
        assert forall i :: 0 <= i < |times| ==> times[i] == all[i];
      }
      SuperviseSound(times, limit, window);
      assert times[|times| - 1] == all[|all| - 2] <= now;
      PrunedQueueIsRecent(times, Supervise(times, limit, window).queue, times[|times| - 1], now, window);
    }
  }

  lemma {:induction false} HistoryIsRequests(times: seq<int>, limit: nat, window: int)
    requires !Supervise(times, limit, window).exhausted
    ensures Supervise(times, limit, window).history == times
  {
    if times != [] {
      var rest := times[..|times| - 1];
      HistoryIsRequests(rest, limit, window);
      assert times == rest + [times[|times| - 1]];
    }
  }

  // ---- A clock that may be set back ----

  /** A restart that some later request saw leave the window is still out of it when the window could fill again. */
  ghost predicate StaysExpired(times: seq<int>, limit: nat, window: int) {
    forall i, k :: 0 <= i < k < i + limit && i + limit < |times| && times[k] - times[i] >= window ==>
      times[i + limit] - times[i] >= window
  }

  /** Every restart no longer in the queue was seen out of the window by some later request. */
  ghost predicate SeenExpired(times: seq<int>, queue: seq<int>, window: int) {
    && |queue| <= |times| && queue == times[|times| - |queue|..]
    && forall i :: 0 <= i < |times| - |queue| ==> ExpiredBy(times, i, window)
  }

  ghost predicate ExpiredBy(times: seq<int>, i: nat, window: int)
    requires i < |times|
  {
    exists k :: i < k < |times| && times[k] - times[i] >= window
  }

  /** What one admitted request adds: the restarts pruned by it are seen expired by it. */
  lemma AdmittedSeesExpired(times: seq<int>, queue: seq<int>, now: int, window: int)
    requires SeenExpired(times, queue, window)
    ensures SeenExpired(times + [now], Prune(queue, now, window) + [now], window)
  {
    var all := times + [now];
    var k := PruneIsTail(queue, now, window);
    var dropped := |times| - |queue|;
    assert times[dropped..][k..] == times[dropped + k..];
    forall i | 0 <= i < dropped + k
      ensures ExpiredBy(all, i, window)
    {
      if i < dropped {
        assert ExpiredBy(times, i, window);
        var j :| i < j < |times| && times[j] - times[i] >= window;
        assert all[j] - all[i] >= window;
      } else {
        assert times[i] == queue[i - dropped];
        assert all[|times|] - all[i] >= window;
      }
    }
  }

  lemma {:induction false} SuperviseSeesExpired(times: seq<int>, limit: nat, window: int)
    requires !Supervise(times, limit, window).exhausted
    ensures SeenExpired(times, Supervise(times, limit, window).queue, window)
    ensures |Supervise(times, limit, window).queue| <= limit
  {
    if times != [] {
      var rest, now := times[..|times| - 1], times[|times| - 1];
      SuperviseSeesExpired(rest, limit, window);
      AdmittedSeesExpired(rest, Supervise(rest, limit, window).queue, now, window);
      assert times == rest + [now];
    }
  }

  /**
   The exact condition, for any clock: the admitted restarts are spaced exactly when no restart that was
   seen to expire is back inside the window `limit` restarts after it.
   */
  lemma SpacedExactlyWhen(times: seq<int>, limit: nat, window: int)
    requires limit > 0 && window > 0 && !Supervise(times, limit, window).exhausted
    ensures Supervise(times, limit, window).history == times
    ensures Spaced(times, limit, window) <==> StaysExpired(times, limit, window)
  {
    HistoryIsRequests(times, limit, window);
    if StaysExpired(times, limit, window) {
      forall i | 0 <= i && i + limit < |times|
        ensures times[i + limit] - times[i] >= window
      {
        var k := ExpiredInTime(times, limit, window, i);
        assert k < i + limit ==> times[i + limit] - times[i] >= window;
      }
    }
  }

  /** The restart `limit` after `i` was admitted because some request up to it saw `i` expired. */
  lemma ExpiredInTime(times: seq<int>, limit: nat, window: int, i: nat) returns (k: nat)
    requires limit > 0 && i + limit < |times| && !Supervise(times, limit, window).exhausted
    ensures i < k <= i + limit && times[k] - times[i] >= window
  {
    var upTo := times[..i + limit + 1];
    NotExhaustedBefore(times, limit, window, i + limit + 1);
    SuperviseSeesExpired(upTo, limit, window);
    assert i < |upTo| - |Supervise(upTo, limit, window).queue|;
    assert ExpiredBy(upTo, i, window);
    k :| i < k < |upTo| && upTo[k] - upTo[i] >= window;
  }

  lemma {:induction false} NotExhaustedBefore(times: seq<int>, limit: nat, window: int, n: nat)
    requires n <= |times| && !Supervise(times, limit, window).exhausted
    ensures !Supervise(times[..n], limit, window).exhausted
    decreases |times|
  {
    if n == |times| {
      assert times[..n] == times;
    } else {
      var rest := times[..|times| - 1];
      NotExhaustedBefore(rest, limit, window, n);
      assert rest[..n] == times[..n];
    }
  }

  /** A clock that is set back breaks the spacing: three restarts within ten milliseconds of each other's window. */
  lemma ClockSetBackBreaksSpacing()
    ensures var s := Supervise([0, 5000, 10], 2, 1000);
            !s.exhausted && !Spaced(s.history, 2, 1000)
  {
    var times := [0, 5000, 10];
    assert times[..2] == [0, 5000] && times[..2][..1] == [0] && times[..2][..1][..0] == [];
    var s1 := Supervise([0], 2, 1000);
    assert s1 == Supervision([0], [0], false) by {
      assert [0][..0] == [];
      assert Supervise([], 2, 1000) == Supervision([], [], false);
    }
    var s2 := Supervise([0, 5000], 2, 1000);
    assert s2 == Supervision([0, 5000], [5000], false) by {
      assert [0, 5000][..1] == [0];
      assert Prune([0], 5000, 1000) == Prune([], 5000, 1000) == [];
    }
    var s3 := Supervise(times, 2, 1000);
    assert s3.history == [0, 5000, 10];
    assert s3.history[0 + 2] - s3.history[0] == 10;
  }

  /** Waits grow with each restart in the window and stay between the base wait and one minute. */
  lemma {:induction false} BackoffGrows(restart: nat, backoffMs: nat)
    requires 1 <= restart && backoffMs <= 60000
    ensures backoffMs <= BackoffAfter(restart, backoffMs) <= BackoffAfter(restart + 1, backoffMs) <= 60000
  {
    if restart > 1 {
      BackoffGrows(restart - 1, backoffMs);
      assert Doubled(restart) == 2 * Doubled(restart - 1);
    }
  }

  /** The first wait is the base wait, each later one twice the one before, up to a minute. */
  lemma BackoffDoubles(restart: nat, backoffMs: nat)
    requires restart >= 1
    ensures BackoffAfter(1, backoffMs) == if backoffMs < 60000 then backoffMs else 60000
    ensures var wait := BackoffAfter(restart, backoffMs);
            BackoffAfter(restart + 1, backoffMs) == if 2 * wait < 60000 then 2 * wait else 60000
  {
    assert backoffMs * Doubled(restart) == 2 * (backoffMs * Doubled(restart - 1));
    assert backoffMs * Doubled(0) == backoffMs;
  }

  // ---- Line framer ----

  const BOUND := 16384

  function IndexOf(s: string, c: char): (i: int)
    ensures -1 <= i < |s|
    ensures i == -1 ==> c !in s
    ensures i >= 0 ==> s[i] == c && c !in s[..i]
  {
    if s == [] then -1
    else if s[0] == c then 0
    else
      var i := IndexOf(s[1..], c);
      assert s == [s[0]] + s[1..];
      if i < 0 then -1
      else
        assert s[..i + 1] == [s[0]] + s[1..][..i];
        i + 1
  }

  /** The complete lines of `s`, without their newlines. */
  function Lines(s: string): (lines: seq<string>)
    ensures forall line :: line in lines ==> '\n' !in line
  {
    var i := IndexOf(s, '\n');
    if i < 0 then [] else [s[..i]] + Lines(s[i + 1..])
  }

  /** What follows the last newline of `s`. */
  function Rest(s: string): (r: string)
    ensures '\n' !in r
    ensures |r| <= |s|
  {
    var i := IndexOf(s, '\n');
    if i < 0 then s else Rest(s[i + 1..])
  }

  function Joined(lines: seq<string>): string {
    if lines == [] then [] else lines[0] + "\n" + Joined(lines[1..])
  }

  class LineFramer {
    var pending: string

    constructor ()
      ensures pending == []
    {
      pending := [];
    }

    /** One chunk of child output; returns the lines it completes. */
    method Data(chunk: string) returns (lines: seq<string>)
      modifies this
      ensures |chunk| + |old(pending)| > 16384 ==> lines == [] && pending == []
      ensures |chunk| + |old(pending)| <= 16384 ==>
                lines == Lines(old(pending) + chunk) && pending == Rest(old(pending) + chunk)
      ensures |pending| <= BOUND || pending == old(pending)
    {
      lines := [];
      if |chunk| + |pending| > BOUND {
        pending := [];
        return;
      }
      pending := pending + chunk;
      var newline := IndexOf(pending, '\n');
      while newline >= 0
        invariant newline == IndexOf(pending, '\n')
        invariant lines + Lines(pending) == Lines(old(pending) + chunk)
        invariant Rest(pending) == Rest(old(pending) + chunk)
        invariant |pending| <= |old(pending) + chunk|
        decreases |pending|
      {
        var line := pending[..newline];
        Associate(lines, [line], Lines(pending[newline + 1..]));
        pending := pending[newline + 1..];
        lines := lines + [line];
        newline := IndexOf(pending, '\n');
      }
    }
  }

  datatype Framed = Framed(lines: seq<string>, pending: string)

  /** All lines delivered for a sequence of chunks, and the text still pending. */
  function Feed(chunks: seq<string>): (f: Framed)
    ensures |f.pending| <= BOUND
    ensures '\n' !in f.pending
  {
    if chunks == [] then Framed([], [])
    else
      var f, chunk := Feed(chunks[..|chunks| - 1]), chunks[|chunks| - 1];
      if |chunk| + |f.pending| > BOUND then Framed(f.lines, [])
      else Framed(f.lines + Lines(f.pending + chunk), Rest(f.pending + chunk))
  }

  predicate Trips(chunks: seq<string>)
    requires chunks != []
  {
    |chunks[|chunks| - 1]| + |Feed(chunks[..|chunks| - 1]).pending| > BOUND
  }

  function Concatenated(chunks: seq<string>): string {
    if chunks == [] then [] else Concatenated(chunks[..|chunks| - 1]) + chunks[|chunks| - 1]
  }

  /** `Lines` and `Rest` lose nothing. */
  lemma {:induction false} LinesAndRestRebuild(s: string)
    ensures Joined(Lines(s)) + Rest(s) == s
    decreases |s|
  {
    var i := IndexOf(s, '\n');
    if i >= 0 {
      LinesAndRestRebuild(s[i + 1..]);
      var more := Lines(s[i + 1..]);
      assert ([s[..i]] + more)[1..] == more;
      Associate(s[..i] + "\n", Joined(more), Rest(s[i + 1..]));
      SplitAt(s, i);
    }
  }

  lemma SplitAt(s: string, i: nat)
    requires i < |s|
    ensures s == s[..i] + [s[i]] + s[i + 1..]
  {
  }

  lemma FirstNewline(s: string, i: nat)
    requires i < |s| && s[i] == '\n' && '\n' !in s[..i]
    ensures IndexOf(s, '\n') == i
  {
    assert s[i] in s;
    var j := IndexOf(s, '\n');
    assert 0 <= j;
  }

  /** Framing text in two parts is framing the pending rest of the first part with the second. */
  lemma {:induction false} LinesSplit(a: string, b: string)
    ensures Lines(a + b) == Lines(a) + Lines(Rest(a) + b)
    ensures Rest(a + b) == Rest(Rest(a) + b)
    decreases |a|
  {
    var i := IndexOf(a, '\n');
    if i >= 0 {
      assert (a + b)[..i] == a[..i];
      FirstNewline(a + b, i);
      assert (a + b)[i + 1..] == a[i + 1..] + b;
      LinesSplit(a[i + 1..], b);
    }
  }

  /** However output is cut into chunks, as long as none trips the bound, its complete lines are delivered in order. */
  lemma {:induction false} ChunkingIsInvisible(chunks: seq<string>)
    requires forall n :: 1 <= n <= |chunks| ==> !Trips(chunks[..n])
    ensures Feed(chunks) == Framed(Lines(Concatenated(chunks)), Rest(Concatenated(chunks)))
  {
    if chunks != [] {
      var rest, chunk := chunks[..|chunks| - 1], chunks[|chunks| - 1];
      forall n | 1 <= n <= |rest|
        ensures !Trips(rest[..n])
      {
        assert rest[..n] == chunks[..n];
      }
      ChunkingIsInvisible(rest);
      assert chunks[..|chunks|] == chunks;
      LinesSplit(Concatenated(rest), chunk);
    }
  }

  /** After a trip the framer behaves as if freshly started. */
  lemma {:induction false} TripRestarts(before: seq<string>, after: seq<string>)
    requires before != [] && Trips(before)
    ensures Feed(before + after) == Framed(Feed(before).lines + Feed(after).lines, Feed(after).pending)
  {
    if after == [] {
      assert before + after == before;
    } else {
      var rest, last := after[..|after| - 1], after[|after| - 1];
      TripRestarts(before, rest);
      assert (before + after)[..|before + after| - 1] == before + rest;
    }
  }
}
