/**
 Reading one board by its list and its vacancy pages (packages/discovery/src/breezy.ts): the explicit
 stack traversal of a page, and the bounded scan around it. HTML and JSON parsing are parameters.
 */
module Breezy {
  import opened Outcome
  import opened Collections
  import opened TextOrder

  datatype Attribute = Attribute(name: string, value: string)

  datatype Node =
    | Element(tag: string, attributes: seq<Attribute>, children: seq<Node>)
    | Container(children: seq<Node>)   // document or fragment
    | Text(value: string)
    | Inert                            // comment or document type

  datatype Target = Target(breezy: bool, board: string, postingId: string, canonicalUrl: string)

  datatype Detail = Detail(target: Target, title: string, origin: string, user: string, password: string,
                           description: string)

  /** A JSON value: `detail` is None when a posting does not meet its schema. */
  datatype Value = Unrelated | JobPosting(detail: Option<Detail>)

  datatype Item = Item(id: string, friendlyId: string, name: string, company: string, target: Target)

  const MAX_NODES: nat := 100000

  // ---- The traversal ----

  predicate IsJsonLd(a: Attribute) {
    a.name == "type" && LowerCase(a.value) == "application/ld+json"
  }

  predicate IsScript(n: Node) {
    n.Element? && n.tag == "script" && exists a :: a in n.attributes && IsJsonLd(a)
  }

  function Children(n: Node): seq<Node> {
    if n.Element? || n.Container? then n.children else []
  }

  function ScriptText(nodes: seq<Node>): string {
    if nodes == [] then []
    else ScriptText(nodes[..|nodes| - 1]) + (if nodes[|nodes| - 1].Text? then nodes[|nodes| - 1].value else "")
  }

  function Own(parse: string -> Option<Value>, n: Node): seq<Option<Value>> {
    if IsScript(n) then [parse(ScriptText(n.children))] else []
  }

  /** The values of the data scripts of a tree, by recursive walk; None marks malformed text. */
  function Scripts(parse: string -> Option<Value>, n: Node): seq<Option<Value>> {
    Own(parse, n) + (if n.Element? || n.Container? then ScriptsOf(parse, n.children) else [])
  }

  function ScriptsOf(parse: string -> Option<Value>, nodes: seq<Node>): seq<Option<Value>> {
    if nodes == [] then []
    else ScriptsOf(parse, nodes[..|nodes| - 1]) + Scripts(parse, nodes[|nodes| - 1])
  }

  function Count(n: Node): nat {
    1 + (if n.Element? || n.Container? then CountOf(n.children) else 0)
  }

  function CountOf(nodes: seq<Node>): nat {
    if nodes == [] then 0 else CountOf(nodes[..|nodes| - 1]) + Count(nodes[|nodes| - 1])
  }

  /** The postings among the values, each None when it does not meet the schema. */
  function PostingsIn(values: seq<Option<Value>>): seq<Option<Detail>> {
    if values == [] then []
    else
      var last := values[|values| - 1];
      PostingsIn(values[..|values| - 1]) + (if last.Some? && last.value.JobPosting? then [last.value.detail] else [])
  }

  ghost predicate Malformed(values: seq<Option<Value>>) {
    exists v :: v in values && v.None?
  }

  /**
   The one posting of a tree within the node bound; None when
   there is none, or several, or any script is malformed.
   */
  ghost function TheOnlyPosting(parse: string -> Option<Value>, tree: Node): Option<Detail> {
    var postings := PostingsIn(Scripts(parse, tree));
    if Count(tree) > MAX_NODES || Malformed(Scripts(parse, tree)) || |postings| != 1 then Option.None else postings[0]
  }

  lemma {:induction false} CountAppend(a: seq<Node>, b: seq<Node>)
    ensures CountOf(a + b) == CountOf(a) + CountOf(b)
  {
    if b == [] {
      assert a + b == a;
    } else {
      CountAppend(a, b[..|b| - 1]);
      assert (a + b)[..|a + b| - 1] == a + b[..|b| - 1];
    }
  }

  lemma {:induction false} ScriptsAppend(parse: string -> Option<Value>, a: seq<Node>, b: seq<Node>)
    ensures ScriptsOf(parse, a + b) == ScriptsOf(parse, a) + ScriptsOf(parse, b)
  {
    if b == [] {
      assert a + b == a;
    } else {
      ScriptsAppend(parse, a, b[..|b| - 1]);
      assert (a + b)[..|a + b| - 1] == a + b[..|b| - 1];
      Associate(ScriptsOf(parse, a), ScriptsOf(parse, b[..|b| - 1]), Scripts(parse, b[|b| - 1]));
    }
  }

  lemma {:induction false} PostingsAppend(a: seq<Option<Value>>, b: seq<Option<Value>>)
    ensures PostingsIn(a + b) == PostingsIn(a) + PostingsIn(b)
  {
    if b == [] {
      assert a + b == a;
    } else {
      PostingsAppend(a, b[..|b| - 1]);
      assert (a + b)[..|a + b| - 1] == a + b[..|b| - 1];
    }
  }

  /** What a walk still owes: the stack's nodes, and the values of their scripts, whatever the order. */
  ghost predicate Accounts(parse: string -> Option<Value>, tree: Node, stack: seq<Node>, nodes: nat,
                           found: seq<Option<Detail>>) {
    && nodes + CountOf(stack) == Count(tree)
    && multiset(found) + multiset(PostingsIn(ScriptsOf(parse, stack))) == multiset(PostingsIn(Scripts(parse, tree)))
    && (Malformed(ScriptsOf(parse, stack)) <==> Malformed(Scripts(parse, tree)))
  }

  lemma StartAccounts(parse: string -> Option<Value>, tree: Node)
    ensures Accounts(parse, tree, [tree], 0, [])
  {
    assert [tree][..0] == [];
    assert ScriptsOf(parse, [tree]) == [] + Scripts(parse, tree) == Scripts(parse, tree);
    assert CountOf([tree]) == CountOf([]) + Count(tree);
  }

  /** Taking a node off the stack and putting its children on it. */
  lemma PopAccounts(parse: string -> Option<Value>, tree: Node, rest: seq<Node>, n: Node, nodes: nat,
                    found: seq<Option<Detail>>)
    requires Accounts(parse, tree, rest + [n], nodes, found) && !Malformed(Own(parse, n))
    ensures Accounts(parse, tree, rest + Children(n), nodes + 1, found + PostingsIn(Own(parse, n)))
    ensures CountOf(rest + [n]) > CountOf(rest + Children(n))
  {
    hide IsScript, Own, Malformed;
    assert (rest + [n])[..|rest|] == rest;
    CountAppend(rest, Children(n));
    ScriptsAppend(parse, rest, Children(n));
    var own, below, before := Own(parse, n), ScriptsOf(parse, Children(n)), ScriptsOf(parse, rest);
    assert Scripts(parse, n) == own + below;
    assert ScriptsOf(parse, rest + [n]) == before + (own + below);
    PostingsAppend(before, own + below);
    PostingsAppend(own, below);
    PostingsAppend(before, below);
    MalformedParts(before, own, below);
    assert CountOf(rest + [n]) == CountOf(rest) + Count(n);
    assert Count(n) == 1 + CountOf(Children(n));
    hide Scripts, ScriptsOf, Count, CountOf, PostingsIn, Children;
    Moved(found, PostingsIn(own), PostingsIn(before), PostingsIn(below));
  }

  lemma Moved<T>(found: seq<T>, own: seq<T>, before: seq<T>, below: seq<T>)
    ensures multiset(found + own) + multiset(before + below) == multiset(found) + multiset(before + (own + below))
  {
  }

  lemma MalformedParts(before: seq<Option<Value>>, own: seq<Option<Value>>, below: seq<Option<Value>>)
    requires !Malformed(own)
    ensures Malformed(before + (own + below)) <==> Malformed(before + below)
  {
  }

  lemma OwnMalformed(parse: string -> Option<Value>, tree: Node, rest: seq<Node>, n: Node, nodes: nat,
                     found: seq<Option<Detail>>)
    requires Accounts(parse, tree, rest + [n], nodes, found) && Malformed(Own(parse, n))
    ensures Malformed(Scripts(parse, tree))
  {
    hide IsScript, Own;
    assert (rest + [n])[..|rest|] == rest;
    var v :| v in Own(parse, n) && v.None?;
    assert v in Scripts(parse, n);
    assert v in ScriptsOf(parse, rest + [n]);
  }

  /** The stack traversal finds what the recursive walk finds. */
  method FindPosting(parse: string -> Option<Value>, tree: Node) returns (r: Option<Detail>)
    ensures r == TheOnlyPosting(parse, tree)
  {
    hide Accounts, Malformed, Own;
    var stack := [tree];
    var found: seq<Option<Detail>> := [];
    var nodes := 0;
    StartAccounts(parse, tree);
    while stack != []
      invariant Accounts(parse, tree, stack, nodes, found) && nodes <= MAX_NODES
      decreases CountOf(stack)
    {
      var node, rest := stack[|stack| - 1], stack[..|stack| - 1];
      assert stack == rest + [node];
      nodes := nodes + 1;
      if nodes > MAX_NODES {
        StillCounting(parse, tree, rest, node, nodes - 1, found);
        return Option.None;
      }
      if IsScript(node) {
        var value := parse(ScriptText(node.children));
        OwnValue(parse, node);
        if value.None? {
          OwnMalformed(parse, tree, rest, node, nodes - 1, found);
          return Option.None;
        }
        PopAccounts(parse, tree, rest, node, nodes - 1, found);
        if value.value.JobPosting? {
          found := found + [value.value.detail];
        }
      } else {
        OwnNothing(parse, node);
        PopAccounts(parse, tree, rest, node, nodes - 1, found);
      }
      stack := rest + Children(node);
    }
    EndAccounts(parse, tree, nodes, found);
    r := if |found| != 1 then Option.None else found[0];
  }

  lemma StillCounting(parse: string -> Option<Value>, tree: Node, rest: seq<Node>, n: Node, nodes: nat,
                      found: seq<Option<Detail>>)
    requires Accounts(parse, tree, rest + [n], nodes, found)
    ensures Count(tree) > nodes
  {
    assert (rest + [n])[..|rest|] == rest;
    assert CountOf(rest + [n]) == CountOf(rest) + Count(n);
  }

  lemma OwnValue(parse: string -> Option<Value>, n: Node)
    requires IsScript(n)
    ensures var value := parse(ScriptText(n.children));
            && (Malformed(Own(parse, n)) <==> value.None?)
            && (forall found: seq<Option<Detail>> :: value.Some? ==>
                  found + PostingsIn(Own(parse, n)) == if value.value.JobPosting? then found + [value.value.detail]
                    else found)
  {
    var value := parse(ScriptText(n.children));
    assert Own(parse, n) == [value] && [value][..0] == [];
    assert PostingsIn([value]) == if value.Some? && value.value.JobPosting? then [value.value.detail] else [];
    assert value in [value];
  }

  lemma OwnNothing(parse: string -> Option<Value>, n: Node)
    requires !IsScript(n)
    ensures !Malformed(Own(parse, n)) && forall found: seq<Option<Detail>> :: found + PostingsIn(Own(parse, n)) == found
  {
    assert Own(parse, n) == [];
  }

  lemma EndAccounts(parse: string -> Option<Value>, tree: Node, nodes: nat, found: seq<Option<Detail>>)
    requires Accounts(parse, tree, [], nodes, found)
    ensures Count(tree) == nodes && !Malformed(Scripts(parse, tree))
    ensures var postings := PostingsIn(Scripts(parse, tree));
            |found| == |postings| && (|found| == 1 ==> found[0] == postings[0])
  {
    var postings := PostingsIn(Scripts(parse, tree));
    assert multiset(found) == multiset(postings);
    assert |multiset(found)| == |found| && |multiset(postings)| == |postings|;
    if |found| == 1 {
      assert found[0] in multiset(found);
      assert postings == [postings[0]] && found == [found[0]];
      SameMembers(found, postings);
    }
  }

  // ---- One vacancy page ----

  datatype Reply = Broken | Reply(status: nat, body: string)

  /** What the outside world answers: read `n`, the time limit at moment `m` of read `n`, and the parsers. */
  datatype Site = Site(
    read: (nat, string) -> Reply, expired: (nat, nat) -> bool, bytes: string -> nat,
    list: string -> Option<seq<Item>>, tree: string -> Node, parse: string -> Option<Value>, plain: string -> string
  )

  const MAX_PAGE_BYTES: nat := 8 * 1024 * 1024
  const MAX_BYTES: nat := 32 * 1024 * 1024
  const MAX_ITEMS: nat := 198
  const MAX_PAGES: nat := 200

  function Origin(board: string): string {
    "https://" + board + ".breezy.hr"
  }

  predicate Identifies(board: string, item: Item, d: Detail) {
    && d.target.breezy && d.target.board == board && d.target.postingId == item.friendlyId
    && d.title == item.name && d.origin == Origin(board) && d.user == "" && d.password == ""
  }

  /** The description a vacancy page gives for a listed item. */
  ghost function Described(site: Site, board: string, item: Item, body: string): Option<string> {
    if site.bytes(body) > MAX_PAGE_BYTES then Option.None
    else
      match TheOnlyPosting(site.parse, site.tree(body))
      case None => Option.None
      case Some(d) => if Identifies(board, item, d) then Option.Some(site.plain(d.description)) else Option.None
  }

  method BreezyDescription(site: Site, board: string, item: Item, body: string) returns (r: Option<string>)
    ensures r == Described(site, board, item, body)
  {
    if site.bytes(body) > MAX_PAGE_BYTES {
      return Option.None;
    }
    var d := FindPosting(site.parse, site.tree(body));
    if d.None? || !Identifies(board, item, d.value) {
      return Option.None;
    }
    r := Option.Some(site.plain(d.value.description));
  }

  // ---- The scan ----

  datatype Page = Page(url: string, reply: Reply)

  datatype Job = Job(item: Item, description: string, page: nat)

  datatype Batch = Batch(jobs: seq<Job>, pages: seq<Page>)

  datatype Reason =
    | Full | Overdue | StorageBound | Forbidden | RateLimited | HttpStatus(status: nat) | ReadFailed | Invalid

  datatype Failure = Failure(reason: Reason, pages: seq<Page>)

  ghost predicate Timely(site: Site, n: nat) {
    !site.expired(n, 0) && !site.expired(n, 1) && !site.expired(n, 2)
  }

  ghost predicate ReadsWell(site: Site, n: nat, url: string) {
    Timely(site, n) && site.read(n, url).Reply? && site.read(n, url).status == 200
  }

  function BytesOf(site: Site, pages: seq<Page>): nat {
    if pages == [] then 0
    else
      var last := pages[|pages| - 1].reply;
      BytesOf(site, pages[..|pages| - 1]) + (if last.Reply? then site.bytes(last.body) else 0)
  }

  /** One bounded read, recorded as evidence. */
  method Get(site: Site, url: string, pages: seq<Page>, bytes: nat)
    returns (r: Result<string, Reason>, after: seq<Page>, total: nat)
    requires bytes == BytesOf(site, pages)
    ensures var n := |pages|; var all := pages + [Page(url, site.read(n, url))];
            && (r.Ok? <==> n < MAX_PAGES && ReadsWell(site, n, url) && BytesOf(site, all) <= MAX_BYTES)
            && (r.Ok? ==> after == all && total == BytesOf(site, all) && r.value == site.read(n, url).body)
            && (r == Err(Full) ==> n >= MAX_PAGES)
            && (after == pages || after == all)
  {
    var n := |pages|;
    after, total := pages, bytes;
    if site.expired(n, 0) {
      return Err(Overdue), after, total;
    }
    if n >= MAX_PAGES {
      return Err(Full), after, total;
    }
    if site.expired(n, 1) {
      return Err(Overdue), after, total;
    }
    var reply := site.read(n, url);
    if reply.Broken? {
      return Err(ReadFailed), after, total;
    }
    after := pages + [Page(url, reply)];
    assert after[..n] == pages;
    total := bytes + site.bytes(reply.body);
    if total > MAX_BYTES {
      return Err(StorageBound), after, total;
    }
    if site.expired(n, 2) {
      return Err(Overdue), after, total;
    }
    if reply.status == 403 {
      return Err(Forbidden), after, total;
    }
    if reply.status == 429 {
      return Err(RateLimited), after, total;
    }
    if reply.status != 200 {
      return Err(HttpStatus(reply.status)), after, total;
    }
    r := Ok(reply.body);
  }

  predicate ItemOk(board: string, item: Item) {
    && item.company == board && item.target.breezy && item.target.board == board
    && item.target.postingId == item.friendlyId && item.id <= item.friendlyId
  }

  function ListUrl(board: string): string {
    Origin(board) + "/json"
  }

  /** The address of read `k` of a scan over `list`: the list, each vacancy, and the list again. */
  function UrlOf(board: string, list: seq<Item>, k: nat): string {
    if 1 <= k <= |list| then list[k - 1].target.canonicalUrl else ListUrl(board)
  }

  ghost function FirstPages(site: Site, board: string, list: seq<Item>, n: nat): (pages: seq<Page>)
    ensures |pages| == n
  {
    seq(n, k requires 0 <= k < n => PageAt(site, board, list, k))
  }

  ghost function PageAt(site: Site, board: string, list: seq<Item>, k: nat): Page {
    Page(UrlOf(board, list, k), site.read(k, UrlOf(board, list, k)))
  }

  function Body(site: Site, n: nat, url: string): string {
    if site.read(n, url).Reply? then site.read(n, url).body else ""
  }

  /** What the page of item `i`, read number `i + 1`, says about it. */
  ghost function Description(site: Site, board: string, list: seq<Item>, i: nat): Option<string>
    requires i < |list|
  {
    Described(site, board, list[i], Body(site, i + 1, UrlOf(board, list, i + 1)))
  }

  /** Item `i` of the list is valid, is not repeated before, and its page reads well and describes it. */
  ghost predicate ItemWell(site: Site, board: string, list: seq<Item>, i: nat)
    requires i < |list|
  {
    && ItemOk(board, list[i])
    && (forall j :: 0 <= j < i ==> list[j].id != list[i].id)
    && ReadsWell(site, i + 1, UrlOf(board, list, i + 1))
    && Description(site, board, list, i).Some?
  }

  /** Every read of the scan goes well and the list is the same at the end as at the start. */
  ghost predicate Scannable(site: Site, board: string, list: seq<Item>) {
    var n := |list| + 1;
    && |list| <= MAX_ITEMS
    && (forall i :: 0 <= i < |list| ==> ItemWell(site, board, list, i))
    && ReadsWell(site, n, ListUrl(board))
    && Body(site, n, ListUrl(board)) == Body(site, 0, ListUrl(board))
    && BytesOf(site, FirstPages(site, board, list, n + 1)) <= MAX_BYTES
  }

  ghost function JobAt(site: Site, board: string, list: seq<Item>, i: nat): Job
    requires i < |list| && ItemWell(site, board, list, i)
  {
    Job(list[i], Description(site, board, list, i).value, i + 1)
  }

  /** One job per listed item, in order, under the page of its own read. */
  ghost predicate JobsOf(site: Site, board: string, list: seq<Item>, jobs: seq<Job>) {
    |jobs| <= |list| && forall i :: 0 <= i < |jobs| ==>
        ItemWell(site, board, list, i) && jobs[i] == JobAt(site, board, list, i)
  }

  lemma NextPage(site: Site, board: string, list: seq<Item>, n: nat)
    ensures FirstPages(site, board, list, n + 1) == FirstPages(site, board, list, n) + [PageAt(site, board, list, n)]
    ensures BytesOf(site, FirstPages(site, board, list, n)) <= BytesOf(site, FirstPages(site, board, list, n + 1))
  {
    hide PageAt;
    assert FirstPages(site, board, list, n + 1)[..n] == FirstPages(site, board, list, n);
  }

  lemma {:induction false} MorePagesMoreBytes(site: Site, board: string, list: seq<Item>, m: nat, n: nat)
    requires m <= n
    ensures BytesOf(site, FirstPages(site, board, list, m)) <= BytesOf(site, FirstPages(site, board, list, n))
  {
    hide BytesOf, FirstPages;
    if m < n {
      MorePagesMoreBytes(site, board, list, m, n - 1);
      NextPage(site, board, list, n - 1);
    }
  }

  /** The list as the first read returned it. */
  ghost function Listed(site: Site, board: string): Option<seq<Item>> {
    var body := Body(site, 0, ListUrl(board));
    if ReadsWell(site, 0, ListUrl(board)) && site.bytes(body) <= MAX_BYTES then site.list(body) else Option.None
  }

  method ScanItem(site: Site, board: string, ghost list: seq<Item>, ghost i: nat, item: Item, seen: set<string>,
                  pages: seq<Page>, bytes: nat)
    returns (r: Result<Job, Reason>, after: seq<Page>, total: nat)
    requires i < |list| && item == list[i]
    requires pages == FirstPages(site, board, list, i + 1) && bytes == BytesOf(site, pages)
    requires forall id :: id in seen <==> exists k :: 0 <= k < i && list[k].id == id
    ensures r.Ok? <==> i + 1 < MAX_PAGES && ItemWell(site, board, list, i)
                       && BytesOf(site, FirstPages(site, board, list, i + 2)) <= MAX_BYTES
    ensures r.Ok? ==> r.value == JobAt(site, board, list, i) && total == BytesOf(site, after)
    ensures r.Ok? ==> after == FirstPages(site, board, list, i + 2)
    ensures r == Err(Full) ==> i + 1 >= MAX_PAGES
  {
    hide Described, ItemOk;
    after, total := pages, bytes;
    if !ItemOk(board, item) || item.id in seen {
      return Err(Invalid), after, total;
    }
    NextPage(site, board, list, i + 1);
    var read;
    read, after, total := Get(site, item.target.canonicalUrl, pages, bytes);
    if read.Err? {
      return Err(read.error), after, total;
    }
    var description := BreezyDescription(site, board, item, read.value);
    if description.None? {
      return Err(Invalid), after, total;
    }
    r := Ok(Job(item, description.value, |after| - 1));
  }

  /** Reads every listed item. */
  method ScanItems(site: Site, board: string, list: seq<Item>, first: seq<Page>, start: nat)
    returns (r: Result<seq<Job>, Reason>, pages: seq<Page>, bytes: nat)
    requires |list| <= MAX_ITEMS
    requires first == FirstPages(site, board, list, 1) && start == BytesOf(site, first) <= MAX_BYTES
    ensures r.Ok? <==> (forall i :: 0 <= i < |list| ==> ItemWell(site, board, list, i))
                       && BytesOf(site, FirstPages(site, board, list, |list| + 1)) <= MAX_BYTES
    ensures r.Ok? ==> |r.value| == |list| && JobsOf(site, board, list, r.value)
                      && pages == FirstPages(site, board, list, |list| + 1) && bytes == BytesOf(site, pages)
    ensures r != Err(Full)
  {
    hide ItemWell, JobAt, ReadsWell, BytesOf, FirstPages, Described;
    pages, bytes := first, start;
    var jobs: seq<Job>, seen: set<string> := [], {};
    for i := 0 to |list|
      invariant pages == FirstPages(site, board, list, i + 1) && bytes == BytesOf(site, pages) <= MAX_BYTES
      invariant |jobs| == i && JobsOf(site, board, list, jobs)
      invariant forall id :: id in seen <==> exists k :: 0 <= k < i && list[k].id == id
    {
      MorePagesMoreBytes(site, board, list, i + 2, |list| + 1);
      var job;
      job, pages, bytes := ScanItem(site, board, list, i, list[i], seen, pages, bytes);
      if job.Err? {
        return Err(job.error), pages, bytes;
      }
      seen := seen + {list[i].id};
      jobs := jobs + [job.value];
    }
    r := Ok(jobs);
  }

  /**
   A scan succeeds exactly when the list can be read and everything on it is well; it then holds one job
   per listed item, in order, described by its own page `i + 1`. The page limit is never what stops it.
   */
  method PollBreezy(site: Site, board: string) returns (r: Result<Batch, Failure>)
    ensures r.Ok? <==> Listed(site, board).Some? && Scannable(site, board, Listed(site, board).value)
    ensures r.Ok? ==> var list := Listed(site, board).value;
                      && |r.value.jobs| == |list| && JobsOf(site, board, list, r.value.jobs)
                      && r.value.pages == FirstPages(site, board, list, |list| + 2)
    ensures r.Err? ==> r.error.reason != Full
  {
    hide ItemWell, JobsOf, BytesOf, FirstPages;
    var url := ListUrl(board);
    FirstRead(site, board);
    var read, pages, bytes := Get(site, url, [], 0);
    if read.Err? {
      return Err(Failure(read.error, pages));
    }
    var initial := read.value;
    var parsed := site.list(initial);
    if parsed.None? || |parsed.value| > MAX_ITEMS {
      return Err(Failure(Invalid, pages));
    }
    var list := parsed.value;
    OnlyPage(site, board, list);
    var jobs;
    jobs, pages, bytes := ScanItems(site, board, list, pages, bytes);
    NextPage(site, board, list, |list| + 1);
    if jobs.Err? {
      return Err(Failure(jobs.error, pages));
    }
    read, pages, bytes := Get(site, url, pages, bytes);
    if read.Err? {
      return Err(Failure(read.error, pages));
    }
    if read.value != initial {
      return Err(Failure(Invalid, pages));
    }
    return Ok(Batch(jobs.value, pages));
  }

  lemma OnlyPage(site: Site, board: string, list: seq<Item>)
    ensures FirstPages(site, board, list, 1) == [Page(ListUrl(board), site.read(0, ListUrl(board)))]
  {
  }

  lemma FirstRead(site: Site, board: string)
    ensures var page := Page(ListUrl(board), site.read(0, ListUrl(board)));
            && [] + [page] == [page] && BytesOf(site, []) == 0
            && (page.reply.Reply? ==> BytesOf(site, [page]) == site.bytes(page.reply.body))
  {
    var page := Page(ListUrl(board), site.read(0, ListUrl(board)));
    assert [page][..0] == [];
  }

  // ---- What a scan accepts ----

  /** The same text but for the case of its letters, `t` being in lower case. */
  ghost predicate SameButCase(s: string, t: string) {
    |s| == |t| && forall i :: 0 <= i < |s| ==>
        s[i] == t[i] || (65 <= s[i] as int <= 90 && t[i] as int == s[i] as int + 32)
  }

  lemma LowerCaseIs(s: string, t: string)
    requires forall c :: c in t ==> !('A' <= c <= 'Z')
    ensures LowerCase(s) == t <==> SameButCase(s, t)
  {
    if SameButCase(s, t) {
      forall i | 0 <= i < |s|
        ensures LowerCase(s)[i] == t[i]
      {
        assert t[i] in t;
      }
    }
  }

  /** A data script: a script element with the data type among its attributes, in any case. */
  lemma IsScriptExactly(n: Node)
    ensures IsScript(n) <==>
              n.Element? && n.tag == "script"
              && exists a :: a in n.attributes && a.name == "type" && SameButCase(a.value, "application/ld+json")
  {
    var data := "application/ld+json";
    assert forall c :: c in data ==> !('A' <= c <= 'Z');
    forall a: Attribute
      ensures LowerCase(a.value) == data <==> SameButCase(a.value, data)
    {
      LowerCaseIs(a.value, data);
    }
    hide LowerCase, SameButCase;
  }

  /** `m` lies in the tree of `n`. */
  ghost predicate Within(n: Node, m: Node) {
    n == m || exists c :: c in Children(n) && Within(c, m)
  }

  /** Some data script in the tree of `n` has the value `v`. */
  ghost predicate SomeScript(parse: string -> Option<Value>, n: Node, v: Option<Value>) {
    exists m :: Within(n, m) && Gives(parse, m, v)
  }

  ghost predicate Gives(parse: string -> Option<Value>, m: Node, v: Option<Value>) {
    IsScript(m) && v == parse(ScriptText(Children(m)))
  }

  /** The values found are those of exactly the data scripts of the tree, wherever they are. */
  lemma {:induction false} ScriptsExactly(parse: string -> Option<Value>, n: Node, v: Option<Value>)
    ensures v in Scripts(parse, n) <==> SomeScript(parse, n, v)
    decreases n
  {
    hide Gives;
    var below := Children(n);
    forall c | c in below
      ensures v in Scripts(parse, c) <==> SomeScript(parse, c, v)
    {
      ScriptsExactly(parse, c, v);
    }
    ScriptsOfMembers(parse, below, v);
    OwnGives(parse, n, v);
    if m :| Within(n, m) && Gives(parse, m, v) {
      if n != m {
        var c :| c in below && Within(c, m);
        assert SomeScript(parse, c, v);
      }
    }
    if v in ScriptsOf(parse, below) {
      var c :| c in below && v in Scripts(parse, c);
      var m :| Within(c, m) && Gives(parse, m, v);
      assert Within(n, m);
    } else if v in Own(parse, n) {
      assert Within(n, n);
    }
  }

  lemma OwnGives(parse: string -> Option<Value>, n: Node, v: Option<Value>)
    ensures v in Scripts(parse, n) <==> Gives(parse, n, v) || v in ScriptsOf(parse, Children(n))
    ensures v in Own(parse, n) ==> Gives(parse, n, v)
  {
    hide ScriptText;
  }

  lemma {:induction false} ScriptsOfMembers(parse: string -> Option<Value>, nodes: seq<Node>, v: Option<Value>)
    ensures v in ScriptsOf(parse, nodes) <==> exists c :: c in nodes && v in Scripts(parse, c)
  {
    hide Scripts;
    if nodes != [] {
      var rest, last := nodes[..|nodes| - 1], nodes[|nodes| - 1];
      ScriptsOfMembers(parse, rest, v);
      assert nodes == rest + [last] && last in nodes;
      assert ScriptsOf(parse, nodes) == ScriptsOf(parse, rest) + Scripts(parse, last);
      if c :| c in nodes && v in Scripts(parse, c) {
        assert c in rest || c == last;
      }
    }
  }

  /** A page describes an item exactly when its one posting is of the item, at the board's own address. */
  lemma DescribedExactly(site: Site, board: string, item: Item, body: string, text: string)
    ensures Described(site, board, item, body) == Option.Some(text) <==>
              && site.bytes(body) < 8388609
              && exists d :: TheOnlyPosting(site.parse, site.tree(body)) == Option.Some(d)
                             && d.target == Target(true, board, item.friendlyId, d.target.canonicalUrl)
                             && d.title == item.name && d.origin == "https://" + board + ".breezy.hr"
                             && |d.user| == 0 && |d.password| == 0 && text == site.plain(d.description)
  {
    hide TheOnlyPosting;
  }

  /** An item is valid exactly when it is of the board, links to itself there, and its id starts its friendly id. */
  lemma ItemOkExactly(board: string, item: Item)
    ensures ItemOk(board, item) <==>
              && item.company == board && item.target == Target(true, board, item.friendlyId, item.target.canonicalUrl)
              && exists rest :: item.friendlyId == item.id + rest
  {
    if item.id <= item.friendlyId {
      assert item.friendlyId == item.id + item.friendlyId[|item.id|..];
    }
  }

  /** What a scan reads: the list, the page of each item on it, and the list again. */
  lemma ReadsInOrder(site: Site, board: string, list: seq<Item>, k: nat)
    requires k < |list| + 2
    ensures var page, url := FirstPages(site, board, list, |list| + 2)[k], "https://" + board + ".breezy.hr" + "/json";
            && page.reply == site.read(k, page.url)
            && page.url == if 0 < k < |list| + 1 then list[k - 1].target.canonicalUrl else url
  {
  }

  /** The limits of a scan: at most 198 items, and 32 MiB over all reads. */
  lemma ScannableExactly(site: Site, board: string, list: seq<Item>)
    ensures Scannable(site, board, list) <==>
              && |list| < 199
              && (forall i :: 0 <= i < |list| ==> ItemWell(site, board, list, i))
              && ReadsWell(site, |list| + 1, ListUrl(board))
              && site.read(|list| + 1, ListUrl(board)).body == Body(site, 0, ListUrl(board))
              && BytesOf(site, FirstPages(site, board, list, |list| + 2)) < 33554433
  {
    hide ItemWell, BytesOf;
  }

  /** One posting within 100,000 nodes, and no malformed script. */
  lemma TheOnlyPostingExactly(parse: string -> Option<Value>, tree: Node, d: Detail)
    ensures TheOnlyPosting(parse, tree) == Option.Some(d) <==>
              && Count(tree) < 100001 && Option<Value>.None !in Scripts(parse, tree)
              && PostingsIn(Scripts(parse, tree)) == [Option.Some(d)]
  {
    hide Count, Scripts, PostingsIn;
    var postings := PostingsIn(Scripts(parse, tree));
    assert |postings| == 1 ==> postings == [postings[0]];
  }
}
