/**
 Capacity accounting for browsers and contexts (packages/browser/src/resources.ts).
 JavaScript runs one piece of a call at a time, up to the next await: each event below is one
 such piece, and the pieces of any number of calls, closes and disconnects interleave freely.
 */
module BrowserResources {
  /** A browser handed out by the launcher. The same one may be handed out more than once. */
  type Browser = int

  /** Names one release callback, created by one successful launch or context. */
  type Release = nat

  /** The object's counters. */
  datatype Counters = Counters(
    browsers: int,
    contexts: int,
    openingBrowsers: int,
    openingContexts: int,
    peakBrowsers: int,
    peakContexts: int,
    launches: int,
    failures: int
  )

  /**
   The rest of the world: the callbacks still waiting (by the browser whose disconnection fires
   them), how often each callback has fired, the calls suspended at their await, the browsers ever
   used and those that have disconnected.
   */
  datatype World = World(
    browserReleases: map<Release, Browser>,
    contextReleases: map<Release, Browser>,
    browserFired: multiset<Release>,
    contextFired: multiset<Release>,
    nextRelease: Release,
    pendingLaunches: nat,
    pendingContexts: nat,
    seen: set<Browser>,
    disconnected: set<Browser>
  )

  datatype State = State(c: Counters, w: World)

  datatype Event =
    | LaunchBegins
    | LaunchSucceeds(browser: Browser)
    | LaunchFails
    | ContextBegins
    | ContextSucceeds(owner: Browser)
    | ContextFails
    | ContextCloses(release: Release)
    | Disconnects(gone: Browser)

  function Max(a: int, b: int): int {
    if a < b then b else a
  }

  predicate Enabled(w: World, e: Event) {
    match e
    case LaunchSucceeds(_) => w.pendingLaunches > 0
    case LaunchFails => w.pendingLaunches > 0
    case ContextSucceeds(_) => w.pendingContexts > 0
    case ContextFails => w.pendingContexts > 0
    case Disconnects(b) => b !in w.disconnected
    case _ => true
  }

  function Of(releases: map<Release, Browser>, b: Browser): set<Release> {
    set r | r in releases && releases[r] == b
  }

  class BrowserResources {
    const limit: int
    var browsers: int
    var contexts: int
    var openingBrowsers: int
    var openingContexts: int
    var peakBrowsers: int
    var peakContexts: int
    var launches: int
    var failures: int
    var world: World

    constructor (limit: int)
      requires 1 <= limit <= 4
      ensures this.limit == limit && Now() == Fresh()
    {
      this.limit := limit;
      browsers, contexts, openingBrowsers, openingContexts := 0, 0, 0, 0;
      peakBrowsers, peakContexts, launches, failures := 0, 0, 0, 0;
      world := World(map[], map[], multiset{}, multiset{}, 0, 0, 0, {}, {});
    }

    function Snapshot(): Counters
      reads this
    {
      Counters(browsers, contexts, openingBrowsers, openingContexts, peakBrowsers, peakContexts, launches, failures)
    }

    function Now(): State
      reads this
    {
      State(Snapshot(), world)
    }

    /** `launch` up to its await; false when the capacity is taken. */
    method BeginLaunch() returns (ok: bool)
      modifies this
      ensures Now() == Next(limit, old(Now()), LaunchBegins)
      ensures ok == (old(browsers) + old(openingBrowsers) < limit)
      ensures openingBrowsers == old(openingBrowsers) + (if ok then 1 else 0) && browsers == old(browsers)
      ensures Inv(limit, old(Now())) ==> Inv(limit, Now())
    {
      hide Inv;
      if Inv(limit, old(Now())) {
        NextKeepsInv(limit, old(Now()), LaunchBegins);
      }
      if browsers + openingBrowsers >= limit {
        return false;
      }
      openingBrowsers := openingBrowsers + 1;
      world := world.(pendingLaunches := world.pendingLaunches + 1);
      return true;
    }

    /** `launch` after its await, when the launcher delivered `browser`. */
    method FinishLaunch(browser: Browser)
      requires Enabled(world, LaunchSucceeds(browser))
      modifies this
      ensures Now() == Next(limit, old(Now()), LaunchSucceeds(browser))
      ensures browsers == old(browsers) + (if browser in old(world).disconnected then 0 else 1)
              && openingBrowsers == old(openingBrowsers) - 1 && launches == old(launches) + 1
      ensures Inv(limit, old(Now())) ==> Inv(limit, Now())
    {
      hide Inv;
      ghost var before := Now();
      NextIsLaunched(limit, before, browser);
      hide Next, Enabled;
      browsers := browsers + 1;
      launches := launches + 1;
      peakBrowsers := Max(peakBrowsers, browsers);
      var release := world.nextRelease;
      world := world.(browserReleases := world.browserReleases[release := browser],
                      nextRelease := release + 1, seen := world.seen + {browser});
      if browser in world.disconnected {
        ReleaseBrowsers({release});
      }
      openingBrowsers := openingBrowsers - 1;
      world := world.(pendingLaunches := world.pendingLaunches - 1);
      assert Now() == Launched(before, browser);
      hide Launched, FireBrowsers, FireContexts;
      if Inv(limit, before) {
        LaunchedKeepsInv(limit, before, browser);
      }
    }

    /** `launch` after its await, when the launcher failed. */
    method FailLaunch()
      requires Enabled(world, LaunchFails)
      modifies this
      ensures Now() == Next(limit, old(Now()), LaunchFails)
      ensures openingBrowsers == old(openingBrowsers) - 1 && failures == old(failures) + 1 && browsers == old(browsers)
      ensures Inv(limit, old(Now())) ==> Inv(limit, Now())
    {
      hide Inv;
      if Inv(limit, old(Now())) {
        NextKeepsInv(limit, old(Now()), LaunchFails);
      }
      failures := failures + 1;
      openingBrowsers := openingBrowsers - 1;
      world := world.(pendingLaunches := world.pendingLaunches - 1);
    }

    method BeginContext() returns (ok: bool)
      modifies this
      ensures Now() == Next(limit, old(Now()), ContextBegins)
      ensures ok == (old(contexts) + old(openingContexts) < limit)
      ensures openingContexts == old(openingContexts) + (if ok then 1 else 0) && contexts == old(contexts)
      ensures Inv(limit, old(Now())) ==> Inv(limit, Now())
    {
      hide Inv;
      if Inv(limit, old(Now())) {
        NextKeepsInv(limit, old(Now()), ContextBegins);
      }
      if contexts + openingContexts >= limit {
        return false;
      }
      openingContexts := openingContexts + 1;
      world := world.(pendingContexts := world.pendingContexts + 1);
      return true;
    }

    method FinishContext(owner: Browser)
      requires Enabled(world, ContextSucceeds(owner))
      modifies this
      ensures Now() == Next(limit, old(Now()), ContextSucceeds(owner))
      ensures contexts == old(contexts) + (if owner in old(world).disconnected then 0 else 1)
              && openingContexts == old(openingContexts) - 1
      ensures Inv(limit, old(Now())) ==> Inv(limit, Now())
    {
      hide Inv;
      ghost var before := Now();
      NextIsOpened(limit, before, owner);
      hide Next, Enabled;
      contexts := contexts + 1;
      peakContexts := Max(peakContexts, contexts);
      var release := world.nextRelease;
      world := world.(contextReleases := world.contextReleases[release := owner],
                      nextRelease := release + 1, seen := world.seen + {owner});
      if owner in world.disconnected {
        ReleaseContexts({release});
      }
      openingContexts := openingContexts - 1;
      world := world.(pendingContexts := world.pendingContexts - 1);
      assert Now() == Opened(before, owner);
      hide Opened, FireBrowsers, FireContexts;
      if Inv(limit, before) {
        OpenedKeepsInv(limit, before, owner);
      }
    }

    method FailContext()
      requires Enabled(world, ContextFails)
      modifies this
      ensures Now() == Next(limit, old(Now()), ContextFails)
      ensures openingContexts == old(openingContexts) - 1 && failures == old(failures) + 1 && contexts == old(contexts)
      ensures Inv(limit, old(Now())) ==> Inv(limit, Now())
    {
      hide Inv;
      if Inv(limit, old(Now())) {
        NextKeepsInv(limit, old(Now()), ContextFails);
      }
      failures := failures + 1;
      openingContexts := openingContexts - 1;
      world := world.(pendingContexts := world.pendingContexts - 1);
    }

    /** A context's own close event; its callback may already have fired. */
    method CloseContext(release: Release)
      modifies this
      ensures Now() == Next(limit, old(Now()), ContextCloses(release))
      ensures contexts == old(contexts) - (if release in old(world).contextReleases then 1 else 0)
              && release !in world.contextReleases
      ensures Inv(limit, old(Now())) ==> Inv(limit, Now())
    {
      hide Inv;
      if Inv(limit, old(Now())) {
        NextKeepsInv(limit, old(Now()), ContextCloses(release));
      }
      if release in world.contextReleases {
        ReleaseContexts({release});
      }
    }

    /** A browser's one disconnected event fires every callback registered on it. */
    method Disconnect(gone: Browser)
      requires Enabled(world, Disconnects(gone))
      modifies this
      ensures Now() == Next(limit, old(Now()), Disconnects(gone))
      ensures browsers == old(browsers) - |Of(old(world).browserReleases, gone)|
              && contexts == old(contexts) - |Of(old(world).contextReleases, gone)|
      ensures Inv(limit, old(Now())) ==> Inv(limit, Now())
    {
      hide Inv;
      if Inv(limit, old(Now())) {
        NextKeepsInv(limit, old(Now()), Disconnects(gone));
      }
      world := world.(disconnected := world.disconnected + {gone});
      ReleaseBrowsers(Of(world.browserReleases, gone));
      ReleaseContexts(Of(world.contextReleases, gone));
    }

    method ReleaseBrowsers(firing: set<Release>)
      modifies this
      ensures Now() == FireBrowsers(old(Now()), firing)
    {
      browsers := browsers - |firing|;
      world := world.(browserReleases := world.browserReleases - firing,
                      browserFired := world.browserFired + multiset(firing));
    }

    method ReleaseContexts(firing: set<Release>)
      modifies this
      ensures Now() == FireContexts(old(Now()), firing)
    {
      contexts := contexts - |firing|;
      world := world.(contextReleases := world.contextReleases - firing,
                      contextFired := world.contextFired + multiset(firing));
    }
  }

  // ---- The transition each event makes ----

  function Fresh(): State {
    State(Counters(0, 0, 0, 0, 0, 0, 0, 0), World(map[], map[], multiset{}, multiset{}, 0, 0, 0, {}, {}))
  }

  function FireBrowsers(s: State, firing: set<Release>): State {
    State(s.c.(browsers := s.c.browsers - |firing|),
          s.w.(browserReleases := s.w.browserReleases - firing,
               browserFired := s.w.browserFired + multiset(firing)))
  }

  function FireContexts(s: State, firing: set<Release>): State {
    State(s.c.(contexts := s.c.contexts - |firing|),
          s.w.(contextReleases := s.w.contextReleases - firing,
               contextFired := s.w.contextFired + multiset(firing)))
  }

  function Launched(s: State, b: Browser): State
    requires s.w.pendingLaunches > 0
  {
    var n := s.w.nextRelease;
    var up := State(
      s.c.(browsers := s.c.browsers + 1, launches := s.c.launches + 1,
           peakBrowsers := Max(s.c.peakBrowsers, s.c.browsers + 1), openingBrowsers := s.c.openingBrowsers - 1),
      s.w.(browserReleases := s.w.browserReleases[n := b], nextRelease := n + 1,
           seen := s.w.seen + {b}, pendingLaunches := s.w.pendingLaunches - 1));
    if b in s.w.disconnected then FireBrowsers(up, {n}) else up
  }

  function Opened(s: State, owner: Browser): State
    requires s.w.pendingContexts > 0
  {
    var n := s.w.nextRelease;
    var up := State(
      s.c.(contexts := s.c.contexts + 1,
           peakContexts := Max(s.c.peakContexts, s.c.contexts + 1), openingContexts := s.c.openingContexts - 1),
      s.w.(contextReleases := s.w.contextReleases[n := owner], nextRelease := n + 1,
           seen := s.w.seen + {owner}, pendingContexts := s.w.pendingContexts - 1));
    if owner in s.w.disconnected then FireContexts(up, {n}) else up
  }

  function Next(limit: int, s: State, e: Event): State
    requires Enabled(s.w, e)
  {
    match e
    case LaunchBegins =>
      if s.c.browsers + s.c.openingBrowsers >= limit then s
      else State(s.c.(openingBrowsers := s.c.openingBrowsers + 1), s.w.(pendingLaunches := s.w.pendingLaunches + 1))
    case LaunchSucceeds(b) => Launched(s, b)
    case LaunchFails =>
      State(s.c.(failures := s.c.failures + 1, openingBrowsers := s.c.openingBrowsers - 1),
            s.w.(pendingLaunches := s.w.pendingLaunches - 1))
    case ContextBegins =>
      if s.c.contexts + s.c.openingContexts >= limit then s
      else State(s.c.(openingContexts := s.c.openingContexts + 1), s.w.(pendingContexts := s.w.pendingContexts + 1))
    case ContextSucceeds(owner) => Opened(s, owner)
    case ContextFails =>
      State(s.c.(failures := s.c.failures + 1, openingContexts := s.c.openingContexts - 1),
            s.w.(pendingContexts := s.w.pendingContexts - 1))
    case ContextCloses(r) =>
      if r in s.w.contextReleases then FireContexts(s, {r}) else s
    case Disconnects(b) =>
      var off := State(s.c, s.w.(disconnected := s.w.disconnected + {b}));
      FireContexts(FireBrowsers(off, Of(off.w.browserReleases, b)), Of(off.w.contextReleases, b))
  }

  lemma NextIsLaunched(limit: int, s: State, b: Browser)
    requires s.w.pendingLaunches > 0
    ensures Next(limit, s, LaunchSucceeds(b)) == Launched(s, b)
  {
  }

  lemma NextIsOpened(limit: int, s: State, owner: Browser)
    requires s.w.pendingContexts > 0
    ensures Next(limit, s, ContextSucceeds(owner)) == Opened(s, owner)
  {
  }

  // ---- Every run ----

  /** Each callback made so far either waits, on a browser still connected, or has fired once. */
  ghost predicate OnceEach(live: map<Release, Browser>, fired: multiset<Release>, w: World) {
    && (forall r :: r in live ==> r < w.nextRelease && live[r] in w.seen && live[r] !in w.disconnected && fired[r] == 0)
    && (forall r :: r in fired ==> r < w.nextRelease && fired[r] == 1)
  }

  ghost predicate Inv(limit: int, s: State) {
    && s.c.browsers == |s.w.browserReleases|
    && s.c.contexts == |s.w.contextReleases|
    && s.c.openingBrowsers == s.w.pendingLaunches
    && s.c.openingContexts == s.w.pendingContexts
    && s.c.browsers + s.c.openingBrowsers <= limit
    && s.c.contexts + s.c.openingContexts <= limit
    && s.c.browsers <= s.c.peakBrowsers <= limit
    && s.c.contexts <= s.c.peakContexts <= limit
    && s.c.launches == s.c.browsers + |s.w.browserFired|
    && OnceEach(s.w.browserReleases, s.w.browserFired, s.w)
    && OnceEach(s.w.contextReleases, s.w.contextFired, s.w)
  }

  lemma MapShrinks(m: map<Release, Browser>, gone: set<Release>)
    requires gone <= m.Keys
    ensures |m - gone| == |m| - |gone|
  {
    assert (m - gone).Keys == m.Keys - gone;
    assert m.Keys == (m.Keys - gone) + gone;
  }

  lemma FireKeepsOnceEach(live: map<Release, Browser>, fired: multiset<Release>, firing: set<Release>, w: World)
    requires firing <= live.Keys
    requires forall r :: r in live ==> r < w.nextRelease && fired[r] == 0
    requires forall r :: r in live && r !in firing ==> live[r] in w.seen && live[r] !in w.disconnected
    requires forall r :: r in fired ==> r < w.nextRelease && fired[r] == 1
    ensures OnceEach(live - firing, fired + multiset(firing), w)
    ensures |fired + multiset(firing)| == |fired| + |firing|
  {
  }

  ghost predicate OneMore(w: World, w': World, b: Browser) {
    w'.nextRelease == w.nextRelease + 1 && w'.seen == w.seen + {b} && w'.disconnected == w.disconnected
  }

  lemma OnceEachLasts(live: map<Release, Browser>, fired: multiset<Release>, w: World, w': World, b: Browser)
    requires OnceEach(live, fired, w) && OneMore(w, w', b)
    ensures OnceEach(live, fired, w')
  {
  }

  /** Registering a callback on `b`, which fires at once when `b` has already disconnected. */
  lemma RegisterKeepsOnceEach(live: map<Release, Browser>, fired: multiset<Release>, w: World, w': World, b: Browser)
    requires OnceEach(live, fired, w) && OneMore(w, w', b)
    ensures var n, grown := w.nextRelease, live[w.nextRelease := b];
            && |grown| == |live| + 1
            && (b !in w.disconnected ==> OnceEach(grown, fired, w'))
            && (b in w.disconnected ==>
                  && |grown - {n}| == |live|
                  && |fired + multiset({n})| == |fired| + 1
                  && OnceEach(grown - {n}, fired + multiset({n}), w'))
  {
    var n, grown := w.nextRelease, live[w.nextRelease := b];
    assert n !in live && n !in fired;
    assert grown.Keys == live.Keys + {n};
    if b in w.disconnected {
      MapShrinks(grown, {n});
      FireKeepsOnceEach(grown, fired, {n}, w');
    }
  }

  lemma LaunchedKeepsInv(limit: int, s: State, b: Browser)
    requires Inv(limit, s) && s.w.pendingLaunches > 0
    ensures Inv(limit, Launched(s, b))
  {
    RegisterKeepsOnceEach(s.w.browserReleases, s.w.browserFired, s.w, Launched(s, b).w, b);
    OnceEachLasts(s.w.contextReleases, s.w.contextFired, s.w, Launched(s, b).w, b);
  }

  lemma OpenedKeepsInv(limit: int, s: State, owner: Browser)
    requires Inv(limit, s) && s.w.pendingContexts > 0
    ensures Inv(limit, Opened(s, owner))
  {
    RegisterKeepsOnceEach(s.w.contextReleases, s.w.contextFired, s.w, Opened(s, owner).w, owner);
    OnceEachLasts(s.w.browserReleases, s.w.browserFired, s.w, Opened(s, owner).w, owner);
  }

  lemma DisconnectKeepsInv(limit: int, s: State, b: Browser)
    requires Inv(limit, s) && b !in s.w.disconnected
    ensures Inv(limit, Next(limit, s, Disconnects(b)))
  {
    var w' := Next(limit, s, Disconnects(b)).w;
    var fb, fc := Of(s.w.browserReleases, b), Of(s.w.contextReleases, b);
    MapShrinks(s.w.browserReleases, fb);
    MapShrinks(s.w.contextReleases, fc);
    FireKeepsOnceEach(s.w.browserReleases, s.w.browserFired, fb, w');
    FireKeepsOnceEach(s.w.contextReleases, s.w.contextFired, fc, w');
  }

  lemma NextKeepsInv(limit: int, s: State, e: Event)
    requires Inv(limit, s) && Enabled(s.w, e)
    ensures Inv(limit, Next(limit, s, e))
  {
    match e
    case LaunchSucceeds(b) => LaunchedKeepsInv(limit, s, b);
    case ContextSucceeds(owner) => OpenedKeepsInv(limit, s, owner);
    case Disconnects(b) => DisconnectKeepsInv(limit, s, b);
    case ContextCloses(r) =>
      if r in s.w.contextReleases {
        MapShrinks(s.w.contextReleases, {r});
        FireKeepsOnceEach(s.w.contextReleases, s.w.contextFired, {r}, s.w);
      }
    case _ =>
  }

  ghost predicate IsRun(limit: int, run: seq<State>, events: seq<Event>) {
    && |run| == |events| + 1
    && run[0] == Fresh()
    && forall i :: 0 <= i < |events| ==> Enabled(run[i].w, events[i]) && run[i + 1] == Next(limit, run[i], events[i])
  }

  lemma {:induction false} RunKeepsInv(limit: int, run: seq<State>, events: seq<Event>, i: nat)
    requires limit >= 1 && IsRun(limit, run, events) && i < |run|
    ensures Inv(limit, run[i])
  {
    if i > 0 {
      RunKeepsInv(limit, run, events, i - 1);
      NextKeepsInv(limit, run[i - 1], events[i - 1]);
    }
  }

  /**
   In every interleaving: live plus opening stays within the limit,
   nothing goes negative, peaks bound and are bounded.
   */
  lemma CapacityHolds(limit: int, run: seq<State>, events: seq<Event>, i: nat, j: nat)
    requires limit >= 1 && IsRun(limit, run, events) && i <= j < |run|
    ensures var c := run[i].c;
            && 0 <= c.browsers && 0 <= c.openingBrowsers && c.browsers + c.openingBrowsers <= limit
            && 0 <= c.contexts && 0 <= c.openingContexts && c.contexts + c.openingContexts <= limit
            && c.browsers <= run[j].c.peakBrowsers <= limit
            && c.contexts <= run[j].c.peakContexts <= limit
    decreases j
  {
    RunKeepsInv(limit, run, events, i);
    if i < j {
      CapacityHolds(limit, run, events, i, j - 1);
      RunKeepsInv(limit, run, events, j - 1);
      RunKeepsInv(limit, run, events, j);
    }
  }

  /** No callback ever counts down twice, and every launch is either live or released once. */
  lemma ReleasedExactlyOnce(limit: int, run: seq<State>, events: seq<Event>, i: nat, r: Release)
    requires limit >= 1 && IsRun(limit, run, events) && i < |run|
    ensures run[i].w.browserFired[r] <= 1 && run[i].w.contextFired[r] <= 1
    ensures r in run[i].w.browserReleases ==> r !in run[i].w.browserFired
    ensures r in run[i].w.contextReleases ==> r !in run[i].w.contextFired
    ensures run[i].c.launches == run[i].c.browsers + |run[i].w.browserFired|
  {
    RunKeepsInv(limit, run, events, i);
    var w := run[i].w;
    assert OnceEach(w.browserReleases, w.browserFired, w) && OnceEach(w.contextReleases, w.contextFired, w);
    assert r !in w.browserFired ==> w.browserFired[r] == 0;
    assert r !in w.contextFired ==> w.contextFired[r] == 0;
  }

  lemma LiveOwners(live: map<Release, Browser>, fired: multiset<Release>, w: World)
    requires OnceEach(live, fired, w)
    ensures live.Values <= w.seen && live.Values !! w.disconnected
    ensures live.Values == {} ==> live.Keys == {}
  {
    forall r | r in live
      ensures live[r] in live.Values
    {
    }
  }

  /** Once every browser used has disconnected and no call is pending, nothing is counted any more. */
  lemma NothingLeaks(limit: int, run: seq<State>, events: seq<Event>, i: nat)
    requires limit >= 1 && IsRun(limit, run, events) && i < |run|
    requires run[i].w.seen <= run[i].w.disconnected
    requires run[i].w.pendingLaunches == 0 && run[i].w.pendingContexts == 0
    ensures run[i].c.browsers == run[i].c.contexts == run[i].c.openingBrowsers == run[i].c.openingContexts == 0
  {
    RunKeepsInv(limit, run, events, i);
    NothingOpen(limit, run[i]);
  }

  /** The events lead from `s` to `end`. */
  ghost predicate Leads(limit: int, s: State, events: seq<Event>, end: State)
    decreases |events|
  {
    if events == [] then s == end
    else Enabled(s.w, events[0]) && Leads(limit, Next(limit, s, events[0]), events[1..], end)
  }

  /** What still has to end: calls at their await, and browsers still connected. */
  ghost function Remaining(w: World): (nat, nat) {
    (w.pendingLaunches + w.pendingContexts, |w.seen - w.disconnected|)
  }

  /** Unless nothing remains, some event can end a call or a browser. */
  lemma SomethingEnds(limit: int, s: State) returns (e: Event)
    requires s.w.pendingLaunches > 0 || s.w.pendingContexts > 0
             || exists b :: b in s.w.seen && b !in s.w.disconnected
    ensures Enabled(s.w, e)
    ensures var before, after := Remaining(s.w), Remaining(Next(limit, s, e).w);
            after.0 < before.0 || (after.0 == before.0 && after.1 < before.1)
  {
    if s.w.pendingLaunches > 0 {
      e := LaunchFails;
    } else if s.w.pendingContexts > 0 {
      e := ContextFails;
    } else {
      var b :| b in s.w.seen && b !in s.w.disconnected;
      e := Disconnects(b);
      var w := Next(limit, s, e).w;
      assert w.seen - w.disconnected == (s.w.seen - s.w.disconnected) - {b};
    }
  }

  /** Whatever is pending or open can always end: some events lead from any sound state to four zero counters. */
  lemma {:induction false} CanAlwaysDrain(limit: int, s: State) returns (events: seq<Event>, end: State)
    requires limit >= 1 && Inv(limit, s)
    ensures Leads(limit, s, events, end) && Inv(limit, end)
    ensures end.c.browsers == end.c.contexts == end.c.openingBrowsers == end.c.openingContexts == 0
    decreases Remaining(s.w).0, Remaining(s.w).1
  {
    if s.w.pendingLaunches == 0 && s.w.pendingContexts == 0
       && forall b :: b in s.w.seen ==> b in s.w.disconnected {
      NothingOpen(limit, s);
      events, end := [], s;
    } else {
      var e := SomethingEnds(limit, s);
      NextKeepsInv(limit, s, e);
      hide Inv, Next, Enabled;
      var rest;
      rest, end := CanAlwaysDrain(limit, Next(limit, s, e));
      events := [e] + rest;
    }
  }

  lemma NothingOpen(limit: int, s: State)
    requires Inv(limit, s) && s.w.seen <= s.w.disconnected && s.w.pendingLaunches == 0 && s.w.pendingContexts == 0
    ensures s.c.browsers == s.c.contexts == s.c.openingBrowsers == s.c.openingContexts == 0
  {
    LiveOwners(s.w.browserReleases, s.w.browserFired, s.w);
    LiveOwners(s.w.contextReleases, s.w.contextFired, s.w);
    assert s.w.browserReleases.Values == {};
    assert s.w.contextReleases.Values == {};
  }
}
