/**
 Scanning a paged job feed (packages/discovery/src/connectors.ts). Transport and page parsing are
 parameters; a scan is proved to reassemble what the pages held.
 */
module PollSource {
  import opened Outcome
  import opened Collections

  datatype Connector = Greenhouse | Ashby | Lever | Recruitee | Teamtailor | Workable | Personio

  datatype Source = Source(connector: Connector, etag: Option<string>)

  datatype Address = Offset(skip: nat) | Whole | Widget

  /** One reply of the transport; `location` says where a redirect leads. */
  datatype Reply = Broken | Reply(status: nat, body: string, bytes: nat, etag: Option<string>,
                                  location: Option<Address>)

  datatype Posting = Posting(id: string, descriptionLength: nat)

  /** `size` counts the rows of the page, including those that are not listed. */
  datatype Parsed = Parsed(postings: seq<Posting>, size: nat)

  /** What the outside world answers: read `n`, the time limit at turn `n`, and the parse of a body. */
  datatype Site = Site(read: (nat, Address) -> Reply, expired: nat -> bool, parse: string -> Option<Parsed>)

  datatype Job = Job(posting: Posting, page: nat)

  datatype Page = Page(address: Address, reply: Reply)

  datatype Batch = Batch(jobs: seq<Job>, pages: seq<Page>, warnings: seq<string>, notModified: bool,
                         etag: Option<string>)

  datatype Reason =
    | TimeLimit | StorageBound | RedirectLeft | Forbidden | RateLimited | HttpStatus(status: nat)
    | InvalidPage | Repeated | PageLimit | ScanFailed

  datatype Failure = Failure(reason: Reason, pages: seq<Page>)

  const MAX_BYTES: nat := 32 * 1024 * 1024
  const PAGE: nat := 100
  const MAX_PAGES: nat := 100

  predicate Paged(c: Connector) {
    c == Lever || c == Teamtailor
  }

  function AddressOf(c: Connector, page: nat): Address {
    if Paged(c) then Offset(page * PAGE) else Whole
  }

  function WithPage(postings: seq<Posting>, page: nat): (jobs: seq<Job>)
    ensures |jobs| == |postings|
    ensures forall i :: 0 <= i < |jobs| ==> jobs[i] == Job(postings[i], page)
  {
    seq(|postings|, i requires 0 <= i < |postings| => Job(postings[i], page))
  }

  ghost predicate DistinctPostings(jobs: seq<Job>) {
    forall i, j :: 0 <= i < j < |jobs| ==> jobs[i].posting.id != jobs[j].posting.id
  }

  ghost function Ids(jobs: seq<Job>): set<string> {
    set job | job in jobs :: job.posting.id
  }

  function Warnings(jobs: seq<Job>): seq<string> {
    if jobs == [] then []
    else
      var last := jobs[|jobs| - 1].posting;
      Warnings(jobs[..|jobs| - 1]) + (if last.descriptionLength < 30 then [last.id] else [])
  }

  // ---- One turn ----

  /** A turn of the scan: the pages read, and the reply to interpret or the reason to stop. */
  datatype Fetch = Fetched(pages: seq<Page>, bytes: nat, reply: Reply) | Stopped(pages: seq<Page>, reason: Reason)

  function ReadOnce(site: Site, address: Address, pages: seq<Page>, bytes: nat): (f: Fetch)
    ensures f.Fetched? ==> f.pages == pages + [Page(address, f.reply)]
    ensures f.Fetched? ==> f.reply == site.read(|pages|, address) && f.reply.Reply?
    ensures f.Fetched? ==> f.bytes == bytes + f.reply.bytes
  {
    match site.read(|pages|, address)
    case Broken => Stopped(pages, ScanFailed)
    case reply => Fetched(pages + [Page(address, reply)], bytes + reply.bytes, reply)
  }

  /** Reads one page, and the widget behind the one redirect that is followed. */
  function FetchPage(source: Source, site: Site, page: nat, pages: seq<Page>, bytes: nat): (f: Fetch)
    ensures f.Fetched? ==> Interpretable(source, site, page, pages, bytes, f)
  {
    if site.expired(page) then Stopped(pages, TimeLimit)
    else
      var first := ReadOnce(site, AddressOf(source.connector, page), pages, bytes);
      if first.Stopped? then first
      else if first.bytes > MAX_BYTES then Stopped(pages, StorageBound)
      else if source.connector == Workable && first.reply.status == 302 then
        if first.reply.location != Option.Some(Widget) then Stopped(first.pages, RedirectLeft)
        else
          var second := ReadOnce(site, Widget, first.pages, first.bytes);
          TwoMore(pages, Page(AddressOf(source.connector, page), first.reply), second.pages);
          if second.Fetched? && second.bytes > MAX_BYTES then Stopped(second.pages, StorageBound) else second
      else
        assert first.pages[|pages|..] == [Page(AddressOf(source.connector, page), first.reply)];
        first
  }

  lemma TwoMore(pages: seq<Page>, first: Page, all: seq<Page>)
    ensures |all| == |pages| + 2 && pages + [first] <= all ==>
              pages <= all && BytesOf(all[|pages|..]) == BytesOf([first]) + BytesOf([all[|pages| + 1]])
  {
    if |all| == |pages| + 2 && pages + [first] <= all {
      assert all[|pages|] == (pages + [first])[|pages|];
      assert all[|pages|..][1..] == [all[|pages| + 1]];
    }
  }

  /** The reply to interpret is the last page read; what was read before it stays, within the byte bound. */
  ghost predicate Interpretable(source: Source, site: Site, page: nat, pages: seq<Page>, bytes: nat, f: Fetch)
    requires f.Fetched?
  {
    && f.reply.Reply? && f.bytes <= MAX_BYTES && |pages| < |f.pages| <= |pages| + 2 && pages <= f.pages
    && f.pages[|f.pages| - 1].reply == f.reply
    && (|f.pages| == |pages| + 1 ==> f.pages == pages + [Page(AddressOf(source.connector, page), f.reply)])
    && (|f.pages| == |pages| + 2 ==>
         source.connector == Workable && f.pages[|pages|].reply.Reply? && f.pages[|pages|].reply.status == 302)
    && f.bytes == bytes + BytesOf(f.pages[|pages|..])
  }

  function BytesOf(pages: seq<Page>): nat {
    if pages == [] then 0
    else (if pages[0].reply.Reply? then pages[0].reply.bytes else 0) + BytesOf(pages[1..])
  }

  function StatusFault(reply: Reply): Option<Reason>
    requires reply.Reply?
  {
    if reply.status == 403 then Option.Some(Forbidden)
    else if reply.status == 429 then Option.Some(RateLimited)
    else if reply.status != 200 then Option.Some(HttpStatus(reply.status))
    else Option.None
  }

  predicate NotModified(source: Source, reply: Reply)
    requires reply.Reply?
  {
    reply.status == 304 && source.connector == Greenhouse && source.etag.Some? && source.etag.value != ""
  }

  /** The result of a scan that has finished `page` turns. */
  ghost function ScanFrom(source: Source, site: Site, page: nat, jobs: seq<Job>, pages: seq<Page>,
                          bytes: nat): (r: Result<Batch, Failure>)
    decreases MAX_PAGES - page
  {
    if page >= MAX_PAGES then Err(Failure(PageLimit, pages))
    else
      match FetchPage(source, site, page, pages, bytes)
      case Stopped(p, reason) => Err(Failure(reason, p))
      case Fetched(p, total, reply) =>
        if NotModified(source, reply) then Ok(Batch(jobs, p, Warnings(jobs), true, source.etag))
        else if StatusFault(reply).Some? then Err(Failure(StatusFault(reply).value, p))
        else
          match site.parse(reply.body)
          case None => Err(Failure(InvalidPage, p))
          case Some(parsed) =>
            var all := jobs + WithPage(parsed.postings, |p| - 1);
            if !DistinctPostings(all) then Err(Failure(Repeated, p))
            else if !Paged(source.connector) || parsed.size < PAGE then
              Ok(Batch(all, p, Warnings(all), false,
                       if source.connector == Greenhouse then reply.etag else Option.None))
            else ScanFrom(source, site, page + 1, all, p, total)
  }

  /** Adds the jobs of a page one by one; stops at the first repeated posting. */
  method AddJobs(jobs: seq<Job>, found: seq<Job>, known: set<string>, said: seq<string>)
    returns (ok: bool, all: seq<Job>, seen: set<string>, warnings: seq<string>)
    requires DistinctPostings(jobs) && known == Ids(jobs) && said == Warnings(jobs)
    ensures ok <==> DistinctPostings(jobs + found)
    ensures ok ==> all == jobs + found && seen == Ids(all) && warnings == Warnings(all)
  {
    all, seen, warnings := jobs, known, said;
    for k := 0 to |found|
      invariant all == jobs + found[..k]
      invariant DistinctPostings(all) && seen == Ids(all) && warnings == Warnings(all)
    {
      var job := found[k];
      PrefixGrows(found, k);
      Associate(jobs, found[..k], [job]);
      if job.posting.id in seen {
        StillRepeated(all, job, jobs + found);
        return false, all, seen, warnings;
      }
      SeenGrows(all, job);
      seen := seen + {job.posting.id};
      if job.posting.descriptionLength < 30 {
        warnings := warnings + [job.posting.id];
      }
      all := all + [job];
    }
    assert found[..|found|] == found;
    ok := true;
  }

  /** One turn of the scan. */
  lemma Turn(source: Source, site: Site, page: nat, jobs: seq<Job>, pages: seq<Page>, bytes: nat)
    ensures var r := ScanFrom(source, site, page, jobs, pages, bytes);
            if page >= MAX_PAGES then r == Err(Failure(PageLimit, pages))
            else
              match FetchPage(source, site, page, pages, bytes)
              case Stopped(p, reason) => r == Err(Failure(reason, p))
              case Fetched(p, total, reply) =>
                if NotModified(source, reply) then r == Ok(Batch(jobs, p, Warnings(jobs), true, source.etag))
                else if StatusFault(reply).Some? then r == Err(Failure(StatusFault(reply).value, p))
                else if site.parse(reply.body).None? then r == Err(Failure(InvalidPage, p))
                else
                  var parsed := site.parse(reply.body).value;
                  var all := jobs + WithPage(parsed.postings, |p| - 1);
                  if !DistinctPostings(all) then r == Err(Failure(Repeated, p))
                  else if !Paged(source.connector) || parsed.size < PAGE then
                    r == Ok(Batch(all, p, Warnings(all), false,
                                  if source.connector == Greenhouse then reply.etag else Option.None))
                  else r == ScanFrom(source, site, page + 1, all, p, total)
  {
    hide FetchPage, DistinctPostings, Warnings, StatusFault, NotModified, WithPage;
  }

  method PollSource(source: Source, site: Site) returns (r: Result<Batch, Failure>)
    ensures r == ScanFrom(source, site, 0, [], [], 0)
  {
    hide FetchPage, AddressOf, BytesOf, DistinctPostings, Warnings, Ids, StatusFault, NotModified, ScanFrom;
    var jobs: seq<Job>, pages: seq<Page>, warnings: seq<string>, seen: set<string>, bytes := [], [], [], {}, 0;
    NoJobs();
    for page := 0 to MAX_PAGES
      invariant ScanFrom(source, site, 0, [], [], 0) == ScanFrom(source, site, page, jobs, pages, bytes)
      invariant DistinctPostings(jobs) && seen == Ids(jobs) && warnings == Warnings(jobs)
    {
      Turn(source, site, page, jobs, pages, bytes);
      var fetch := FetchPage(source, site, page, pages, bytes);
      if fetch.Stopped? {
        return Err(Failure(fetch.reason, fetch.pages));
      }
      pages, bytes := fetch.pages, fetch.bytes;
      if NotModified(source, fetch.reply) {
        return Ok(Batch(jobs, pages, warnings, true, source.etag));
      }
      var fault := StatusFault(fetch.reply);
      if fault.Some? {
        return Err(Failure(fault.value, pages));
      }
      var parsed := site.parse(fetch.reply.body);
      if parsed.None? {
        return Err(Failure(InvalidPage, pages));
      }
      var ok;
      ok, jobs, seen, warnings := AddJobs(jobs, WithPage(parsed.value.postings, |pages| - 1), seen, warnings);
      if !ok {
        return Err(Failure(Repeated, pages));
      }
      if !Paged(source.connector) || parsed.value.size < PAGE {
        return Ok(Batch(jobs, pages, warnings, false,
                        if source.connector == Greenhouse then fetch.reply.etag else Option.None));
      }
    }
    Turn(source, site, MAX_PAGES, jobs, pages, bytes);
    return Err(Failure(PageLimit, pages));
  }

  lemma NoJobs()
    ensures DistinctPostings([]) && Ids([]) == {} && Warnings([]) == []
  {
  }

  lemma StillRepeated(jobs: seq<Job>, job: Job, all: seq<Job>)
    requires jobs + [job] <= all && job.posting.id in Ids(jobs)
    ensures !DistinctPostings(all)
  {
    var k :| 0 <= k < |jobs| && jobs[k].posting.id == job.posting.id;
    assert all[k] == (jobs + [job])[k] && all[|jobs|] == (jobs + [job])[|jobs|];
  }

  lemma SeenGrows(jobs: seq<Job>, job: Job)
    requires DistinctPostings(jobs) && job.posting.id !in Ids(jobs)
    ensures DistinctPostings(jobs + [job])
    ensures Warnings(jobs + [job]) == Warnings(jobs)
            + (if job.posting.descriptionLength < 30 then [job.posting.id] else [])
    ensures Ids(jobs + [job]) == Ids(jobs) + {job.posting.id}
  {
    var all := jobs + [job];
    assert all[..|jobs|] == jobs;
    assert all[|jobs|] == job;
    assert forall n :: 0 <= n < |jobs| ==> all[n] == jobs[n] && jobs[n] in jobs;
    assert forall j :: j in all <==> j in jobs || j == job;
  }

  // ---- What a batch is ----

  /** The jobs the pages held: replies other than 200 hold none. */
  ghost function Held(site: Site, pages: seq<Page>): seq<Job> {
    if pages == [] then []
    else
      var n := |pages| - 1;
      Held(site, pages[..n]) + HeldBy(site, pages[n], n)
  }

  ghost function HeldBy(site: Site, page: Page, n: nat): seq<Job> {
    if page.reply.Reply? && page.reply.status == 200 && site.parse(page.reply.body).Some?
    then WithPage(site.parse(page.reply.body).value.postings, n) else []
  }

  lemma HeldAppend(site: Site, pages: seq<Page>, page: Page)
    ensures Held(site, pages + [page]) == Held(site, pages) + HeldBy(site, page, |pages|)
  {
    hide HeldBy;
    assert (pages + [page])[..|pages|] == pages;
  }

  lemma HeldGrows(site: Site, pages: seq<Page>, f: seq<Page>)
    requires pages <= f && |pages| < |f| <= |pages| + 2
    requires |f| == |pages| + 2 ==> HeldBy(site, f[|pages|], |pages|) == []
    ensures Held(site, f) == Held(site, pages) + HeldBy(site, f[|f| - 1], |f| - 1)
  {
    hide HeldBy, Held;
    var n := |f| - 1;
    assert f == f[..n] + [f[n]];
    HeldAppend(site, f[..n], f[n]);
    if n == |pages| {
      assert f[..n] == pages;
    } else {
      assert f[..n] == pages + [f[|pages|]];
      HeldAppend(site, pages, f[|pages|]);
    }
  }

  lemma {:induction false} BytesAdd(a: seq<Page>, b: seq<Page>)
    ensures BytesOf(a + b) == BytesOf(a) + BytesOf(b)
  {
    if a == [] {
      assert a + b == b;
    } else {
      BytesAdd(a[1..], b);
      assert (a + b)[1..] == a[1..] + b;
    }
  }

  /** Page `k` of a paged feed, as read in a scan. */
  ghost function FeedPage(site: Site, k: nat): Page {
    Page(Offset(k * PAGE), site.read(k, Offset(k * PAGE)))
  }

  ghost predicate PageIsFull(site: Site, page: Page) {
    page.reply.Reply? && page.reply.status == 200 && site.parse(page.reply.body).Some?
      && site.parse(page.reply.body).value.size >= PAGE
  }

  ghost predicate FullPages(site: Site, pages: seq<Page>) {
    forall k :: 0 <= k < |pages| ==> pages[k] == FeedPage(site, k) && PageIsFull(site, pages[k])
  }

  /** A scan in progress: what it has is what the pages held. */
  ghost predicate Gathered(source: Source, site: Site, page: nat, jobs: seq<Job>, pages: seq<Page>, bytes: nat) {
    && DistinctPostings(jobs) && jobs == Held(site, pages) && bytes == BytesOf(pages) <= MAX_BYTES
    && (if Paged(source.connector) then |pages| == page && FullPages(site, pages) else page == 0 && pages == [])
  }

  /**
   A batch holds exactly the jobs of its pages in order, no posting twice, within the byte bound. A paged
   feed was read to its first short page; any other was read once, or twice through the one redirect.
   */
  ghost predicate Sound(source: Source, site: Site, batch: Batch) {
    && DistinctPostings(batch.jobs) && batch.jobs == Held(site, batch.pages) && batch.warnings == Warnings(batch.jobs)
    && BytesOf(batch.pages) <= MAX_BYTES && batch.pages != []
    && var last := |batch.pages| - 1;
       if Paged(source.connector)
       then FullPages(site, batch.pages[..last]) && batch.pages[last] == FeedPage(site, last)
         && !PageIsFull(site, batch.pages[last])
       else last <= (if source.connector == Workable then 1 else 0)
  }

  /** A turn that reads a page keeps what is gathered. */
  lemma FetchGathers(source: Source, site: Site, page: nat, jobs: seq<Job>, pages: seq<Page>, bytes: nat)
    requires Gathered(source, site, page, jobs, pages, bytes) && FetchPage(source, site, page, pages, bytes).Fetched?
    ensures var f := FetchPage(source, site, page, pages, bytes); var last := |f.pages| - 1;
            && f.reply.Reply? && last >= 0 && f.pages[last].reply == f.reply
            && jobs + HeldBy(site, f.pages[last], last) == Held(site, f.pages)
            && f.bytes == BytesOf(f.pages) <= MAX_BYTES
            && (Paged(source.connector) ==> last == page && f.pages == pages + [FeedPage(site, page)])
            && (!Paged(source.connector) ==> last <= if source.connector == Workable then 1 else 0)
  {
    hide FetchPage, Held, BytesOf, DistinctPostings, FullPages;
    var f := FetchPage(source, site, page, pages, bytes);
    assert Interpretable(source, site, page, pages, bytes, f);
    HeldGrows(site, pages, f.pages);
    BytesAdd(pages, f.pages[|pages|..]);
    assert pages + f.pages[|pages|..] == f.pages;
    if Paged(source.connector) {
      FeedFetched(source, site, page, pages, bytes);
    }
  }

  lemma {:induction false} ScanIsSound(source: Source, site: Site, page: nat, jobs: seq<Job>, pages: seq<Page>,
                                       bytes: nat)
    requires Gathered(source, site, page, jobs, pages, bytes)
    ensures var r := ScanFrom(source, site, page, jobs, pages, bytes); r.Ok? ==> Sound(source, site, r.value)
    decreases MAX_PAGES - page
  {
    hide FetchPage, Interpretable, Warnings, Held, BytesOf, DistinctPostings, FeedPage;
    if page < MAX_PAGES {
      var f := FetchPage(source, site, page, pages, bytes);
      if f.Fetched? {
        FetchGathers(source, site, page, jobs, pages, bytes);
        if Paged(source.connector) {
          assert f.pages[..|pages|] == pages;
        }
        if StatusFault(f.reply).None? && site.parse(f.reply.body).Some? {
          var parsed := site.parse(f.reply.body).value;
          var all := jobs + WithPage(parsed.postings, |f.pages| - 1);
          if DistinctPostings(all) && Paged(source.connector) && parsed.size >= PAGE {
            ScanIsSound(source, site, page + 1, all, f.pages, f.bytes);
          }
        }
      }
    }
  }

  lemma FeedFetched(source: Source, site: Site, page: nat, pages: seq<Page>, bytes: nat)
    requires Paged(source.connector) && |pages| == page && FetchPage(source, site, page, pages, bytes).Fetched?
    ensures FetchPage(source, site, page, pages, bytes).pages == pages + [FeedPage(site, page)]
  {
  }

  /** Every batch of a scan is sound. */
  lemma BatchesAreSound(source: Source, site: Site)
    ensures var r := ScanFrom(source, site, 0, [], [], 0); r.Ok? ==> Sound(source, site, r.value)
  {
    hide ScanFrom;
    ScanIsSound(source, site, 0, [], [], 0);
  }

  /** Every job's page is one the batch read and holds its posting. */
  lemma {:induction false} HeldFrom(site: Site, pages: seq<Page>, i: nat)
    requires i < |Held(site, pages)|
    ensures var job := Held(site, pages)[i]; job.page < |pages| && job in HeldBy(site, pages[job.page], job.page)
  {
    var n := |pages| - 1;
    if i < |Held(site, pages[..n])| {
      HeldFrom(site, pages[..n], i);
    }
  }

  // ---- A source that is read once ----

  /** What a reply stops the scan with, if anything. */
  ghost predicate Stops(source: Source, reply: Reply, reason: Reason)
    requires reply.Reply?
  {
    match reply.status
    case 200 => false
    case 403 => reason == Forbidden
    case 429 => reason == RateLimited
    case status => reason == HttpStatus(status) && !Unchanged(source, reply)
  }

  /** A Greenhouse board that was not modified since the tag sent along. */
  ghost predicate Unchanged(source: Source, reply: Reply)
    requires reply.Reply?
  {
    reply.status == 304 && source.connector == Greenhouse && source.etag.Some? && |source.etag.value| > 0
  }

  /** What the last reply of a source that is not paged makes of the scan. */
  ghost predicate EndsWith(source: Source, site: Site, reply: Reply, pages: seq<Page>, r: Result<Batch, Failure>)
    requires reply.Reply? && pages != []
  {
    && (forall reason :: Stops(source, reply, reason) ==> r == Err(Failure(reason, pages)))
    && (Unchanged(source, reply) ==> r == Ok(Batch([], pages, [], true, source.etag)))
    && (reply.status == 200 ==> PageEnds(source, site, reply, pages, r))
  }

  /** What a page makes of it: its postings in order, unless it does not parse or repeats one. */
  ghost predicate PageEnds(source: Source, site: Site, reply: Reply, pages: seq<Page>, r: Result<Batch, Failure>)
    requires reply.Reply? && pages != []
  {
    match site.parse(reply.body)
    case None => r == Err(Failure(InvalidPage, pages))
    case Some(parsed) =>
      var jobs := WithPage(parsed.postings, |pages| - 1);
      if Repeats(jobs) then r == Err(Failure(Repeated, pages))
      else r == Ok(Batch(jobs, pages, Warnings(jobs), false,
                         if source.connector == Greenhouse then reply.etag else Option.None))
  }

  /** Two jobs are of the same posting. */
  ghost predicate Repeats(jobs: seq<Job>) {
    exists i, j :: 0 <= i < j < |jobs| && jobs[i].posting.id == jobs[j].posting.id
  }

  /** The first turn of a source that is not paged is its last. */
  lemma OnlyTurn(source: Source, site: Site, pages: seq<Page>, bytes: nat, reply: Reply)
    requires !Paged(source.connector) && reply.Reply? && pages != []
    requires FetchPage(source, site, 0, [], 0) == Fetched(pages, bytes, reply)
    ensures var r := ScanFrom(source, site, 0, [], [], 0);
            && (NotModified(source, reply) ==> r == Ok(Batch([], pages, [], true, source.etag)))
            && (!NotModified(source, reply) && StatusFault(reply).Some? ==>
                  r == Err(Failure(StatusFault(reply).value, pages)))
  {
    NoJobs();
    hide FetchPage, Warnings, DistinctPostings, WithPage, StatusFault, NotModified, Paged;
  }

  lemma OnlyPageRead(source: Source, site: Site, pages: seq<Page>, bytes: nat, reply: Reply)
    requires !Paged(source.connector) && reply.Reply? && pages != []
    requires FetchPage(source, site, 0, [], 0) == Fetched(pages, bytes, reply)
    requires !NotModified(source, reply) && StatusFault(reply).None?
    ensures var r := ScanFrom(source, site, 0, [], [], 0);
            match site.parse(reply.body)
            case None => r == Err(Failure(InvalidPage, pages))
            case Some(parsed) =>
              var jobs := [] + WithPage(parsed.postings, |pages| - 1);
              if !DistinctPostings(jobs) then r == Err(Failure(Repeated, pages))
              else r == Ok(Batch(jobs, pages, Warnings(jobs), false,
                                 if source.connector == Greenhouse then reply.etag else Option.None))
  {
    hide FetchPage, Warnings, DistinctPostings, WithPage, StatusFault, NotModified, Paged;
  }

  lemma OnlyPageEnds(source: Source, site: Site, pages: seq<Page>, bytes: nat, reply: Reply)
    requires !Paged(source.connector) && reply.Reply? && pages != []
    requires FetchPage(source, site, 0, [], 0) == Fetched(pages, bytes, reply)
    requires !NotModified(source, reply) && StatusFault(reply).None?
    ensures PageEnds(source, site, reply, pages, ScanFrom(source, site, 0, [], [], 0))
  {
    OnlyPageRead(source, site, pages, bytes, reply);
    if site.parse(reply.body).Some? {
      JobsAlone(site.parse(reply.body).value.postings, |pages| - 1);
    }
    hide ScanFrom, FetchPage, Warnings, DistinctPostings, Repeats, WithPage, StatusFault, NotModified, Paged;
  }

  lemma ReplyEnds(source: Source, site: Site, pages: seq<Page>, bytes: nat, reply: Reply)
    requires source.connector !in {Lever, Teamtailor} && reply.Reply? && pages != []
    requires FetchPage(source, site, 0, [], 0) == Fetched(pages, bytes, reply)
    ensures EndsWith(source, site, reply, pages, ScanFrom(source, site, 0, [], [], 0))
  {
    OnlyTurn(source, site, pages, bytes, reply);
    StatusMeans(source, reply);
    assert !Paged(source.connector);
    hide ScanFrom, FetchPage, PageEnds, StatusFault, NotModified, Stops, Unchanged, Paged;
    if reply.status == 200 {
      OnlyPageEnds(source, site, pages, bytes, reply);
    }
  }

  lemma JobsAlone(postings: seq<Posting>, page: nat)
    ensures var jobs := WithPage(postings, page); [] + jobs == jobs && (DistinctPostings(jobs) <==> !Repeats(jobs))
  {
    RepeatsAreNotDistinct(WithPage(postings, page));
  }

  lemma StatusMeans(source: Source, reply: Reply)
    requires reply.Reply?
    ensures NotModified(source, reply) <==> Unchanged(source, reply)
    ensures Unchanged(source, reply) ==> reply.status == 304 && forall reason :: !Stops(source, reply, reason)
    ensures StatusFault(reply).None? <==> reply.status == 200
    ensures !Unchanged(source, reply) ==>
              forall reason :: Stops(source, reply, reason) <==> StatusFault(reply) == Option.Some(reason)
  {
  }

  lemma RepeatsAreNotDistinct(jobs: seq<Job>)
    ensures DistinctPostings(jobs) <==> !Repeats(jobs)
  {
  }

  lemma StoppedEnds(source: Source, site: Site)
    requires FetchPage(source, site, 0, [], 0).Stopped?
    ensures var f := FetchPage(source, site, 0, [], 0);
            ScanFrom(source, site, 0, [], [], 0) == Err(Failure(f.reason, f.pages))
  {
    hide FetchPage;
  }

  /** A source that is not paged is read once; its reply decides. */
  lemma SingleRead(source: Source, site: Site)
    requires source.connector !in {Lever, Teamtailor}
    ensures var r, reply := ScanFrom(source, site, 0, [], [], 0), site.read(0, Whole);
            && (site.expired(0) ==> r == Err(Failure(TimeLimit, [])))
            && (!site.expired(0) && reply.Broken? ==> r == Err(Failure(ScanFailed, [])))
            && (!site.expired(0) && reply.Reply? && reply.bytes > 33554432 ==> r == Err(Failure(StorageBound, [])))
            && (!site.expired(0) && reply.Reply? && reply.bytes <= 33554432
                && !(source.connector == Workable && reply.status == 302) ==>
                  EndsWith(source, site, reply, [Page(Whole, reply)], r))
  {
    var reply := site.read(0, Whole);
    var f := FetchPage(source, site, 0, [], 0);
    if f.Stopped? {
      StoppedEnds(source, site);
    } else if !(source.connector == Workable && reply.status == 302) {
      assert [] + [Page(Whole, reply)] == [Page(Whole, reply)];
      ReplyEnds(source, site, [Page(Whole, reply)], f.bytes, reply);
    }
    hide ScanFrom, EndsWith;
  }

  /** Workable's one redirect is followed to the account's own widget, and nowhere else. */
  lemma RedirectedRead(source: Source, site: Site)
    requires source.connector == Workable && !site.expired(0)
    requires site.read(0, Whole).Reply? && site.read(0, Whole).status == 302 && site.read(0, Whole).bytes <= 33554432
    ensures var r, first, second := ScanFrom(source, site, 0, [], [], 0), site.read(0, Whole), site.read(1, Widget);
            var one, two := [Page(Whole, first)], [Page(Whole, first), Page(Widget, second)];
            && (first.location != Option.Some(Widget) ==> r == Err(Failure(RedirectLeft, one)))
            && (first.location == Option.Some(Widget) && second.Broken? ==> r == Err(Failure(ScanFailed, one)))
            && (first.location == Option.Some(Widget) && second.Reply? ==>
                  if first.bytes + second.bytes > 33554432 then r == Err(Failure(StorageBound, two))
                  else EndsWith(source, site, second, two, r))
  {
    var first, second := site.read(0, Whole), site.read(1, Widget);
    var f := FetchPage(source, site, 0, [], 0);
    assert [] + [Page(Whole, first)] == [Page(Whole, first)];
    assert [Page(Whole, first)] + [Page(Widget, second)] == [Page(Whole, first), Page(Widget, second)];
    if f.Stopped? {
      StoppedEnds(source, site);
    } else {
      ReplyEnds(source, site, [Page(Whole, first), Page(Widget, second)], f.bytes, second);
    }
    hide ScanFrom, EndsWith;
  }

  // ---- A fixed list served in pages ----

  function Min(a: int, b: int): int {
    if a < b then a else b
  }

  function Slice(list: seq<Posting>, k: nat): seq<Posting> {
    list[Min(k * PAGE, |list|)..Min(k * PAGE + PAGE, |list|)]
  }

  ghost predicate ServesPage(site: Site, list: seq<Posting>, k: nat) {
    var reply := site.read(k, Offset(k * PAGE));
    && !site.expired(k) && reply.Reply? && reply.status == 200
    && site.parse(reply.body) == Option.Some(Parsed(Slice(list, k), |Slice(list, k)|))
  }

  /** The feed answers every read with the 100-item slices of a fixed list, in time. */
  ghost predicate Serves(source: Source, site: Site, list: seq<Posting>) {
    source.connector in {Lever, Teamtailor} && forall k :: 0 <= k < MAX_PAGES ==> ServesPage(site, list, k)
  }

  ghost function FirstPages(site: Site, n: nat): (p: seq<Page>)
    ensures |p| == n && forall k :: 0 <= k < n ==> p[k] == FeedPage(site, k)
  {
    seq(n, k requires 0 <= k < n => FeedPage(site, k))
  }

  /** The list as jobs, each under the page of its slice. */
  ghost function Numbered(list: seq<Posting>): (jobs: seq<Job>)
    ensures |jobs| == |list| && forall i :: 0 <= i < |list| ==> jobs[i] == Job(list[i], i / PAGE)
  {
    seq(|list|, i requires 0 <= i < |list| => Job(list[i], i / PAGE))
  }

  lemma MorePagesMoreBytes(site: Site, m: nat, n: nat)
    requires m <= n
    ensures BytesOf(FirstPages(site, m)) <= BytesOf(FirstPages(site, n))
  {
    var rest := FirstPages(site, n)[m..];
    BytesAdd(FirstPages(site, m), rest);
    assert FirstPages(site, n) == FirstPages(site, m) + rest;
  }

  lemma NextSlice(list: seq<Posting>, m: nat)
    requires m * PAGE <= |list|
    ensures var end := Min(m * PAGE + PAGE, |list|);
            Numbered(list[..m * PAGE]) + WithPage(Slice(list, m), m) == Numbered(list[..end])
              && |Slice(list, m)| == end - m * PAGE
  {
  }

  lemma PrefixDistinct(list: seq<Posting>, n: nat)
    requires n <= |list| && DistinctPostings(Numbered(list))
    ensures DistinctPostings(Numbered(list[..n]))
  {
    var whole, part := Numbered(list), Numbered(list[..n]);
    forall i, j | 0 <= i < j < |part|
      ensures part[i].posting.id != part[j].posting.id
    {
      assert part[i] == whole[i] && part[j] == whole[j];
    }
  }

  lemma ServedFetch(source: Source, site: Site, list: seq<Posting>, m: nat)
    requires Serves(source, site, list) && m < MAX_PAGES
    ensures var pages := FirstPages(site, m); var next := FirstPages(site, m + 1);
            var reply := site.read(m, Offset(m * PAGE));
            FetchPage(source, site, m, pages, BytesOf(pages))
            == if BytesOf(next) > MAX_BYTES then Stopped(pages, StorageBound) else Fetched(next, BytesOf(next), reply)
  {
    var pages, next := FirstPages(site, m), FirstPages(site, m + 1);
    assert ServesPage(site, list, m);
    assert next == pages + [FeedPage(site, m)];
    BytesAdd(pages, [FeedPage(site, m)]);
  }

  lemma ServedReply(source: Source, site: Site, list: seq<Posting>, m: nat)
    requires Serves(source, site, list) && m < MAX_PAGES
    ensures var reply := site.read(m, Offset(m * PAGE));
            && reply.Reply? && StatusFault(reply).None? && !NotModified(source, reply) && Paged(source.connector)
               && source.connector != Greenhouse
            && site.parse(reply.body) == Option.Some(Parsed(Slice(list, m), |Slice(list, m)|))
  {
    assert ServesPage(site, list, m);
  }

  lemma {:induction false} ListScan(source: Source, site: Site, list: seq<Posting>, m: nat)
    requires Serves(source, site, list) && m * PAGE <= |list| && m <= MAX_PAGES
    requires DistinctPostings(Numbered(list[..m * PAGE])) && BytesOf(FirstPages(site, m)) <= MAX_BYTES
    ensures var r := ScanFrom(source, site, m, Numbered(list[..m * PAGE]), FirstPages(site, m),
                              BytesOf(FirstPages(site, m)));
            var all := FirstPages(site, |list| / PAGE + 1);
            && (r.Ok? <==> |list| < MAX_PAGES * PAGE && DistinctPostings(Numbered(list)) && BytesOf(all) <= MAX_BYTES)
            && (r.Ok? ==> r.value == Batch(Numbered(list), all, Warnings(Numbered(list)), false, Option.None))
    decreases MAX_PAGES - m
  {
    hide DistinctPostings, Warnings, BytesOf, FetchPage, Numbered, FirstPages, Serves, ServesPage, Slice, StatusFault,
      NotModified;
    if m < MAX_PAGES {
      var end := Min(m * PAGE + PAGE, |list|);
      ServedFetch(source, site, list, m);
      ServedReply(source, site, list, m);
      NextSlice(list, m);
      MorePagesMoreBytes(site, m + 1, |list| / PAGE + 1);
      if DistinctPostings(Numbered(list)) {
        PrefixDistinct(list, end);
      }
      if end < m * PAGE + PAGE {
        assert list[..end] == list;
        assert |list| / PAGE == m;
      } else if BytesOf(FirstPages(site, m + 1)) <= MAX_BYTES && DistinctPostings(Numbered(list[..end])) {
        ListScan(source, site, list, m + 1);
      }
    }
  }

  /**
   Scanning a fixed list succeeds exactly when it has fewer than 10000 postings, all distinct, and its
   pages fit the byte bound; then it returns that list in order after floor(n / 100) + 1 reads.
   */
  lemma ScanReturnsTheList(source: Source, site: Site, list: seq<Posting>)
    requires Serves(source, site, list)
    ensures var r := ScanFrom(source, site, 0, [], [], 0); var all := FirstPages(site, |list| / PAGE + 1);
            && (r.Ok? <==> |list| < 10000 && DistinctPostings(Numbered(list)) && BytesOf(all) <= 33554432)
            && (r.Ok? ==> r.value == Batch(Numbered(list), all, Warnings(Numbered(list)), false, Option.None))
  {
    hide ScanFrom;
    assert Numbered(list[..0]) == [] && FirstPages(site, 0) == [];
    ListScan(source, site, list, 0);
  }
}
