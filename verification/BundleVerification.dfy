/**
 Verifying a distributed bundle against its manifest (scripts/bundle-verification.ts), on a file tree that
 does not change meanwhile. Hashing, manifest decoding and the list of distributable paths are parameters.
 */
module BundleVerification {
  import opened Outcome
  import opened Collections
  import opened TextOrder

  datatype Node = Regular(content: seq<bv8>) | Directory(children: seq<Child>) | Link | Special

  datatype Child = Child(name: string, node: Node)

  datatype RawFile = RawFile(path: string, bytes: int, sha256: string)

  datatype RawManifest = RawManifest(
    schemaVersion: int, target: string, dependenciesBundled: bool, accepted: bool, version: string, files: seq<RawFile>
  )

  /**
   What the environment provides. `allowed` is the list of
   distributable paths, `required` those no bundle may omit.
   */
  datatype Host = Host(
    digest: seq<bv8> -> string, decode: seq<bv8> -> Option<RawManifest>, versionOk: string -> bool,
    allowed: string -> bool, required: set<string>
  )

  const LIMIT: nat := 128 * 1024 * 1024
  const FILE_LIMIT: nat := 32 * 1024 * 1024
  const MANIFEST_LIMIT: nat := 1024 * 1024
  const MAX_FILES: nat := 2000
  const MAX_NODES: nat := 4000
  const MAX_PARTS: nat := 40

  // ---- Paths ----

  /** The parts of a path between slashes. */
  function Split(path: string): (parts: seq<string>)
    ensures parts != []
  {
    if path == "" then [""]
    else
      var rest, c := Split(path[..|path| - 1]), path[|path| - 1];
      if c == '/' then rest + [""] else rest[..|rest| - 1] + [rest[|rest| - 1] + [c]]
  }

  lemma {:induction false} SplitName(path: string, name: string)
    requires '/' !in name
    ensures Split(path + "/" + name) == Split(path) + [name]
  {
    var whole := path + "/" + name;
    if name == "" {
      assert whole[..|whole| - 1] == path;
    } else {
      var less := name[..|name| - 1];
      SplitName(path, less);
      assert whole[..|whole| - 1] == path + "/" + less;
      assert name == less + [name[|name| - 1]];
    }
  }

  /** No name holds a slash, and no directory holds a name twice. */
  predicate WellFormed(n: Node) {
    n.Directory? ==>
      && (forall i :: 0 <= i < |n.children| ==> '/' !in n.children[i].name && WellFormed(n.children[i].node))
      && forall i, j :: 0 <= i < j < |n.children| ==> n.children[i].name != n.children[j].name
  }

  function ChildOf(children: seq<Child>, name: string): (r: Option<Node>)
    ensures r.Some? ==> exists i :: 0 <= i < |children| && children[i] == Child(name, r.value)
    ensures r.None? ==> forall i :: 0 <= i < |children| ==> children[i].name != name
  {
    if children == [] then Option.None
    else if children[0].name == name then Option.Some(children[0].node)
    else
      var r := ChildOf(children[1..], name);
      assert forall i :: 1 <= i < |children| ==> children[i] == children[1..][i - 1];
      r
  }

  /** The node at a path, reached through directories only: links are never followed. */
  function At(n: Node, parts: seq<string>): Option<Node> {
    if parts == [] then Option.Some(n)
    else if !n.Directory? then Option.None
    else
      match ChildOf(n.children, parts[0])
      case None => Option.None
      case Some(child) => At(child, parts[1..])
  }

  function Located(root: Node, path: string): Option<Node> {
    At(root, Split(path))
  }

  predicate IsRegular(root: Node, path: string) {
    Located(root, path).Some? && Located(root, path).value.Regular?
  }

  /** `path` leads from `n` through directories to `end`, one named child at a time. */
  ghost predicate Leads(n: Node, parts: seq<string>, path: seq<Node>, end: Node) {
    && |path| == |parts| + 1 && path[0] == n && path[|parts|] == end
    && forall k :: 0 <= k < |parts| ==> path[k].Directory? && Child(parts[k], path[k + 1]) in path[k].children
  }

  /** A node is found at a path exactly when the path leads to it through directories. */
  lemma {:induction false} AtExactly(n: Node, parts: seq<string>, end: Node)
    requires WellFormed(n)
    ensures At(n, parts) == Option.Some(end) <==> exists path :: Leads(n, parts, path, end)
  {
    if parts == [] {
      if At(n, parts) == Option.Some(end) {
        assert Leads(n, parts, [n], end);
      }
    } else if n.Directory? {
      forall child | Child(parts[0], child) in n.children
        ensures ChildOf(n.children, parts[0]) == Option.Some(child)
      {
        OnlyChild(n, parts[0], child);
      }
      if ChildOf(n.children, parts[0]).Some? {
        var child := ChildOf(n.children, parts[0]).value;
        AtExactly(child, parts[1..], end);
        if path :| Leads(child, parts[1..], path, end) {
          LeadsFurther(n, parts, child, path, end);
        }
      }
      if path :| Leads(n, parts, path, end) {
        assert Child(parts[0], path[1]) in n.children;
        assert Leads(path[1], parts[1..], path[1..], end);
      }
    } else {
      NoneLeads(n, parts, end);
    }
  }

  lemma NoneLeads(n: Node, parts: seq<string>, end: Node)
    requires parts != [] && !n.Directory?
    ensures forall path :: !Leads(n, parts, path, end)
  {
  }

  lemma OnlyChild(n: Node, name: string, child: Node)
    requires n.Directory? && WellFormed(n) && Child(name, child) in n.children
    ensures ChildOf(n.children, name) == Option.Some(child) && WellFormed(child)
  {
    var i :| 0 <= i < |n.children| && n.children[i] == Child(name, child);
    var j :| 0 <= j < |n.children| && n.children[j] == Child(name, ChildOf(n.children, name).value);
    assert i == j;
  }

  lemma LeadsFurther(n: Node, parts: seq<string>, child: Node, path: seq<Node>, end: Node)
    requires parts != [] && n.Directory? && Child(parts[0], child) in n.children && Leads(child, parts[1..], path, end)
    ensures Leads(n, parts, [n] + path, end)
  {
    var whole := [n] + path;
    forall k | 0 <= k < |parts|
      ensures whole[k].Directory? && Child(parts[k], whole[k + 1]) in whole[k].children
    {
      if k > 0 {
        assert whole[k] == path[k - 1] && parts[k] == parts[1..][k - 1];
      }
    }
  }

  lemma {:induction false} AtChild(n: Node, parts: seq<string>, i: nat)
    requires At(n, parts).Some? && At(n, parts).value.Directory? && WellFormed(n) && i < |At(n, parts).value.children|
    ensures var c := At(n, parts).value.children[i];
            At(n, parts + [c.name]) == Option.Some(c.node) && '/' !in c.name && WellFormed(c.node)
  {
    if parts == [] {
      var c := n.children[i];
      var j :| 0 <= j < |n.children| && n.children[j] == Child(c.name, ChildOf(n.children, c.name).value);
      assert i == j;
      assert ([] + [c.name])[1..] == [];
    } else {
      var child := ChildOf(n.children, parts[0]).value;
      AtChild(child, parts[1..], i);
      var c := At(n, parts).value.children[i];
      assert (parts + [c.name])[1..] == parts[1..] + [c.name];
    }
  }

  lemma LocatedChild(root: Node, path: string, i: nat)
    requires WellFormed(root) && Located(root, path).Some? && Located(root, path).value.Directory?
    requires i < |Located(root, path).value.children|
    ensures var c := Located(root, path).value.children[i];
            Located(root, path + "/" + c.name) == Option.Some(c.node) && '/' !in c.name
  {
    AtChild(root, Split(path), i);
    SplitName(path, Located(root, path).value.children[i].name);
  }

  // ---- The manifest ----

  datatype Manifest = Manifest(version: string, files: seq<RawFile>, bytes: int)

  predicate IsHash(s: string) {
    |s| == 64 && forall c :: c in s ==> '0' <= c <= '9' || 'a' <= c <= 'f'
  }

  predicate PathCharacter(c: char) {
    'a' <= c <= 'z' || 'A' <= c <= 'Z' || '0' <= c <= '9' || c in {'.', '_', '/', '-'}
  }

  predicate Distributed(host: Host, path: string) {
    && 0 < |path| <= 400 && (forall c :: c in path ==> PathCharacter(c))
    && (forall part :: part in Split(path) ==> part != "" && part != "." && part != "..") && |Split(path)| <= MAX_PARTS
    && host.allowed(path)
  }

  predicate FileOk(host: Host, f: RawFile) {
    Distributed(host, f.path) && 0 <= f.bytes <= FILE_LIMIT && IsHash(f.sha256)
  }

  predicate HeaderOk(host: Host, raw: RawManifest) {
    && raw.schemaVersion == 1 && raw.target == "windows-runtime" && !raw.dependenciesBundled && !raw.accepted
    && |raw.version| <= 80 && host.versionOk(raw.version) && 0 < |raw.files| <= MAX_FILES
  }

  function Total(files: seq<RawFile>): int {
    if files == [] then 0 else Total(files[..|files| - 1]) + files[|files| - 1].bytes
  }

  function Paths(files: seq<RawFile>): set<string> {
    set f | f in files :: f.path
  }

  /** Entries valid, distinct even when case is ignored, within the byte bound, with nothing required left out. */
  ghost predicate ManifestOk(host: Host, raw: RawManifest) {
    && HeaderOk(host, raw)
    && (forall f :: f in raw.files ==> FileOk(host, f))
    && (forall i, j :: 0 <= i < j < |raw.files| ==> LowerCase(raw.files[i].path) != LowerCase(raw.files[j].path))
    && Total(raw.files) <= LIMIT
    && host.required <= Paths(raw.files)
  }

  lemma {:induction false} TotalGrows(files: seq<RawFile>, n: nat)
    requires n <= |files| && forall f :: f in files ==> f.bytes >= 0
    ensures 0 <= Total(files[..n]) <= Total(files)
    decreases |files|
  {
    if n < |files| {
      var rest := files[..|files| - 1];
      assert files == rest + [files[|files| - 1]];
      TotalGrows(rest, n);
      assert rest[..n] == files[..n];
    } else {
      assert files[..n] == files;
      if files != [] {
        assert files == files[..n - 1] + [files[n - 1]];
        TotalGrows(files[..n - 1], n - 1);
      }
    }
  }

  /** The byte total is the sum over the entries. */
  lemma {:induction false} TotalSplits(a: seq<RawFile>, b: seq<RawFile>, f: RawFile)
    ensures Total([]) == 0 && Total([f]) == f.bytes && Total(a + b) == Total(a) + Total(b)
  {
    assert [f][..0] == [];
    assert Total([]) == 0;
    if b == [] {
      assert a + b == a;
    } else {
      assert (a + b)[..|a + b| - 1] == a + b[..|b| - 1];
      TotalSplits(a, b[..|b| - 1], f);
    }
  }

  /** A letter or digit of the basic alphabet, or one of minus, full stop, slash and underscore, by their codes. */
  predicate PlainCode(code: int) {
    48 <= code <= 57 || 65 <= code <= 90 || 97 <= code <= 122 || code in {45, 46, 47, 95}
  }

  /** A path inside the bundle: plain characters, at most 400 of them, in at most 40 named parts. */
  ghost predicate Inside(path: string) {
    && 1 <= |path| && |path| < 401 && (forall c :: c in path ==> PlainCode(c as int))
    && (forall part :: part in Split(path) ==> |part| > 0 && part !in {".", ".."}) && |Split(path)| < 41
  }

  /** 64 hexadecimal digits in lower case. */
  ghost predicate LowerHex(s: string) {
    |s| == 2 * 32 && forall c :: c in s ==> var code := c as int; 48 <= code < 58 || 97 <= code < 103
  }

  lemma FileOkExactly(host: Host, f: RawFile)
    ensures FileOk(host, f) <==>
              Inside(f.path) && host.allowed(f.path) && 0 <= f.bytes < 33554433 && LowerHex(f.sha256)
  {
    hide Split;
    forall c: char
      ensures PathCharacter(c) <==> PlainCode(c as int)
    {
    }
  }

  /**
   A manifest is valid exactly when its header is the expected one, it has 1 to 2000 entries, each a path inside
   the bundle that may be distributed, of at most 32 MiB and with a SHA-256, no two alike but for case, together at
   most 128 MiB, and names everything required.
   */
  lemma ManifestOkExactly(host: Host, raw: RawManifest)
    ensures ManifestOk(host, raw) <==>
              && raw.schemaVersion == 1 && raw.target == "windows-runtime"
              && raw.dependenciesBundled == false && raw.accepted == false
              && |raw.version| < 81 && host.versionOk(raw.version) && raw.files != [] && |raw.files| < 2001
              && (forall f :: f in raw.files ==> Inside(f.path) && host.allowed(f.path))
              && (forall f :: f in raw.files ==> 0 <= f.bytes < 33554433 && LowerHex(f.sha256))
              && (forall i, j :: 0 <= i < |raw.files| && 0 <= j < |raw.files| && i != j ==>
                    LowerCase(raw.files[i].path) != LowerCase(raw.files[j].path))
              && Total(raw.files) < 134217729
              && (forall path :: path in host.required ==> exists f :: f in raw.files && f.path == path)
  {
    hide FileOk, Inside, LowerHex, LowerCase, Total;
    forall f
      ensures FileOk(host, f) <==>
                Inside(f.path) && host.allowed(f.path) && 0 <= f.bytes < 33554433 && LowerHex(f.sha256)
    {
      FileOkExactly(host, f);
    }
  }

  method ParseManifest(host: Host, raw: RawManifest) returns (r: Option<Manifest>)
    ensures r.Some? <==> ManifestOk(host, raw)
    ensures r.Some? ==> r.value == Manifest(raw.version, raw.files, Total(raw.files))
  {
    hide LowerCase, FileOk;
    if !HeaderOk(host, raw) {
      return Option.None;
    }
    var seen: set<string>, bytes := {}, 0;
    for i := 0 to |raw.files|
      invariant forall k :: 0 <= k < i ==> FileOk(host, raw.files[k]) && raw.files[k].bytes >= 0
      invariant forall x :: x in seen <==> exists k :: 0 <= k < i && LowerCase(raw.files[k].path) == x
      invariant forall k, n :: 0 <= k < n < i ==> LowerCase(raw.files[k].path) != LowerCase(raw.files[n].path)
      invariant 0 <= bytes == Total(raw.files[..i]) <= LIMIT
    {
      var file := raw.files[i];
      if !FileOk(host, file) {
        return Option.None;
      }
      FileHasBytes(host, file);
      if LowerCase(file.path) in seen {
        return Option.None;
      }
      seen := seen + {LowerCase(file.path)};
      assert raw.files[..i + 1][..i] == raw.files[..i];
      bytes := bytes + file.bytes;
      if bytes > LIMIT {
        TooManyBytes(host, raw, i + 1);
        return Option.None;
      }
    }
    assert raw.files[..|raw.files|] == raw.files;
    if !(host.required <= Paths(raw.files)) {
      return Option.None;
    }
    r := Option.Some(Manifest(raw.version, raw.files, bytes));
  }

  lemma FileHasBytes(host: Host, f: RawFile)
    requires FileOk(host, f)
    ensures 0 <= f.bytes <= FILE_LIMIT
  {
  }

  lemma TooManyBytes(host: Host, raw: RawManifest, n: nat)
    requires n <= |raw.files| && Total(raw.files[..n]) > LIMIT
    ensures !ManifestOk(host, raw)
  {
    hide Distributed, LowerCase;
    if forall f :: f in raw.files ==> FileOk(host, f) {
      TotalGrows(raw.files, n);
    }
  }

  // ---- The tree walk ----

  datatype WalkFault = VisitedBound | TooDeep | PendingBound | Missing | Redirected | Unlisted

  function Count(n: Node): nat {
    1 + (match n case Directory(children) => CountOf(children) case _ => 0)
  }

  function CountOf(children: seq<Child>): nat {
    if children == [] then 0 else CountOf(children[..|children| - 1]) + Count(children[|children| - 1].node)
  }

  /** Everything from `n`, at `path`, is a directory or a listed regular file, and no path is too deep. */
  predicate Clean(listed: set<string>, n: Node, path: string) {
    && |Split(path)| <= MAX_PARTS
    && match n
       case Directory(children) => forall i :: 0 <= i < |children| ==>
           Clean(listed, children[i].node, path + "/" + children[i].name)
       case Regular(_) => path in listed
       case _ => false
  }

  ghost predicate CleanAll(listed: set<string>, nodes: seq<Node>, paths: seq<string>)
    requires |nodes| == |paths|
  {
    forall k :: 0 <= k < |nodes| ==> Clean(listed, nodes[k], paths[k])
  }

  lemma CleanAppend(listed: set<string>, a: seq<Node>, p: seq<string>, b: seq<Node>, q: seq<string>)
    requires |a| == |p| && |b| == |q|
    ensures CleanAll(listed, a + b, p + q) <==> CleanAll(listed, a, p) && CleanAll(listed, b, q)
  {
    hide Clean;
    if CleanAll(listed, a + b, p + q) {
      forall k | 0 <= k < |a|
        ensures Clean(listed, a[k], p[k])
      {
        assert (a + b)[k] == a[k] && (p + q)[k] == p[k];
      }
      forall k | 0 <= k < |b|
        ensures Clean(listed, b[k], q[k])
      {
        assert (a + b)[|a| + k] == b[k] && (p + q)[|a| + k] == q[k];
      }
    }
  }

  lemma CleanDirectory(listed: set<string>, n: Node, path: string)
    requires n.Directory? && |Split(path)| <= MAX_PARTS
    ensures Clean(listed, n, path) <==> CleanAll(listed, Nodes(n.children), Pushed(path, n.children))
  {
    hide Split;
    var nodes, paths := Nodes(n.children), Pushed(path, n.children);
    if CleanAll(listed, nodes, paths) {
      forall i | 0 <= i < |n.children|
        ensures Clean(listed, n.children[i].node, path + "/" + n.children[i].name)
      {
        assert Clean(listed, nodes[i], paths[i]);
      }
    }
  }

  /** What waits: `nodes` are the nodes at the pending paths. */
  function Waiting(nodes: seq<Node>): nat {
    if nodes == [] then 0 else Waiting(nodes[..|nodes| - 1]) + Count(nodes[|nodes| - 1])
  }

  ghost predicate Accounts(root: Node, listed: set<string>, dist: Node, pending: seq<string>, nodes: seq<Node>,
                           visited: nat) {
    && |nodes| == |pending|
    && (forall k :: 0 <= k < |pending| ==> Located(root, pending[k]) == Option.Some(nodes[k]))
    && visited + Waiting(nodes) == Count(dist)
    && (Clean(listed, dist, "dist") <==> CleanAll(listed, nodes, pending))
  }

  lemma {:induction false} WaitingAtLeast(nodes: seq<Node>)
    ensures Waiting(nodes) >= |nodes|
  {
    if nodes != [] {
      WaitingAtLeast(nodes[..|nodes| - 1]);
    }
  }

  /** The children pushed so far. */
  function Pushed(path: string, children: seq<Child>): (r: seq<string>)
    ensures |r| == |children| && forall i :: 0 <= i < |r| ==> r[i] == path + "/" + children[i].name
  {
    seq(|children|, i requires 0 <= i < |children| => path + "/" + children[i].name)
  }

  function Nodes(children: seq<Child>): (r: seq<Node>)
    ensures |r| == |children| && forall i :: 0 <= i < |r| ==> r[i] == children[i].node
  {
    seq(|children|, i requires 0 <= i < |children| => children[i].node)
  }

  lemma {:induction false} WaitingChildren(nodes: seq<Node>, children: seq<Child>)
    ensures Waiting(nodes + Nodes(children)) == Waiting(nodes) + CountOf(children)
  {
    if children == [] {
      assert nodes + Nodes(children) == nodes;
    } else {
      var rest := children[..|children| - 1];
      WaitingChildren(nodes, rest);
      assert (nodes + Nodes(children))[..|nodes| + |rest|] == nodes + Nodes(rest);
    }
  }

  /** A directory is replaced by its children. */
  lemma ChildrenAccount(root: Node, listed: set<string>, dist: Node, rest: seq<string>, path: string,
                        restNodes: seq<Node>, n: Node, visited: nat)
    requires WellFormed(root) && Accounts(root, listed, dist, rest + [path], restNodes + [n], visited) && n.Directory?
             && |Split(path)| <= MAX_PARTS
    ensures Accounts(root, listed, dist, rest + Pushed(path, n.children), restNodes + Nodes(n.children), visited + 1)
    ensures |restNodes| == |rest| && Waiting(restNodes + [n]) > Waiting(restNodes + Nodes(n.children))
  {
    hide WellFormed, Located, Split, Clean, CleanAll;
    var before, nodesBefore := rest + [path], restNodes + [n];
    assert |restNodes| == |rest|;
    TopIsLast(root, rest, path, restNodes, n);
    WaitingTop(restNodes, n);
    WaitingChildren(restNodes, n.children);
    ChildrenLocated(root, rest, path, restNodes, n);
    hide Waiting, Count, CountOf, Pushed, Nodes;
    CleanAppend(listed, restNodes, rest, [n], [path]);
    CleanAppend(listed, restNodes, rest, Nodes(n.children), Pushed(path, n.children));
    CleanDirectory(listed, n, path);
    CleanOne(listed, n, path);
  }

  lemma TopIsLast(root: Node, rest: seq<string>, path: string, restNodes: seq<Node>, n: Node)
    requires |rest| == |restNodes|
    requires forall k :: 0 <= k < |rest + [path]| ==>
               Located(root, (rest + [path])[k]) == Option.Some((restNodes + [n])[k])
    ensures Located(root, path) == Option.Some(n)
    ensures forall k :: 0 <= k < |rest| ==> Located(root, rest[k]) == Option.Some(restNodes[k])
  {
    hide Located;
    var before, nodes := rest + [path], restNodes + [n];
    assert before[|rest|] == path && nodes[|rest|] == n;
    forall k | 0 <= k < |rest|
      ensures Located(root, rest[k]) == Option.Some(restNodes[k])
    {
      assert before[k] == rest[k] && nodes[k] == restNodes[k];
    }
  }

  lemma WaitingTop(restNodes: seq<Node>, n: Node)
    requires n.Directory?
    ensures Waiting(restNodes + [n]) == Waiting(restNodes) + 1 + CountOf(n.children)
  {
    assert (restNodes + [n])[..|restNodes|] == restNodes;
  }

  lemma ChildrenLocated(root: Node, rest: seq<string>, path: string, restNodes: seq<Node>, n: Node)
    requires WellFormed(root) && |rest| == |restNodes| && n.Directory? && Located(root, path) == Option.Some(n)
    requires forall k :: 0 <= k < |rest| ==> Located(root, rest[k]) == Option.Some(restNodes[k])
    ensures var after, nodes := rest + Pushed(path, n.children), restNodes + Nodes(n.children);
            forall k :: 0 <= k < |after| ==> Located(root, after[k]) == Option.Some(nodes[k])
  {
    hide WellFormed, Located;
    var after, nodes := rest + Pushed(path, n.children), restNodes + Nodes(n.children);
    forall k | 0 <= k < |after|
      ensures Located(root, after[k]) == Option.Some(nodes[k])
    {
      if k >= |rest| {
        LocatedChild(root, path, k - |rest|);
      }
    }
  }

  lemma CleanOne(listed: set<string>, n: Node, path: string)
    ensures CleanAll(listed, [n], [path]) <==> Clean(listed, n, path)
  {
    hide Clean;
    assert [n][0] == n && [path][0] == path;
  }

  /** A leaf is done with when it is clean; a node that is not makes the whole unclean. */
  lemma LeafAccounts(root: Node, listed: set<string>, dist: Node, rest: seq<string>, path: string, restNodes: seq<Node>,
                     n: Node, visited: nat)
    requires Accounts(root, listed, dist, rest + [path], restNodes + [n], visited) && !n.Directory?
    ensures Clean(listed, n, path) ==> Accounts(root, listed, dist, rest, restNodes, visited + 1)
    ensures |restNodes| == |rest| && Waiting(restNodes + [n]) > Waiting(restNodes)
  {
    hide Located, Split, Clean, CleanAll;
    var before, nodesBefore := rest + [path], restNodes + [n];
    assert nodesBefore[..|restNodes|] == restNodes && nodesBefore[|rest|] == n;
    forall k | 0 <= k < |rest|
      ensures Located(root, rest[k]) == Option.Some(restNodes[k])
    {
      assert before[k] == rest[k] && nodesBefore[k] == restNodes[k];
    }
    CleanAppend(listed, restNodes, rest, [n], [path]);
    CleanOne(listed, n, path);
  }

  lemma UncleanNode(root: Node, listed: set<string>, dist: Node, rest: seq<string>, path: string, restNodes: seq<Node>,
                    n: Node, visited: nat)
    requires Accounts(root, listed, dist, rest + [path], restNodes + [n], visited) && !Clean(listed, n, path)
    ensures !Clean(listed, dist, "dist")
  {
    hide Located, Split;
    var before, nodesBefore := rest + [path], restNodes + [n];
    assert |nodesBefore| == |before| && |restNodes| == |rest|;
    assert before[|rest|] == path && nodesBefore[|rest|] == n;
    assert !CleanAll(listed, nodesBefore, before);
  }

  lemma TopNode(root: Node, listed: set<string>, dist: Node, rest: seq<string>, path: string, nodes: seq<Node>,
                visited: nat)
    requires Accounts(root, listed, dist, rest + [path], nodes, visited)
    ensures |nodes| == |rest| + 1 && nodes == nodes[..|rest|] + [nodes[|rest|]]
    ensures Located(root, path) == Option.Some(nodes[|rest|])
    ensures Count(dist) > visited && Count(dist) >= visited + |nodes|
    ensures nodes[|rest|].Directory? ==> Count(dist) >= visited + |nodes| + |nodes[|rest|].children|
  {
    hide Located, Split, Clean, CleanAll;
    assert (rest + [path])[|rest|] == path;
    WaitingAtLeast(nodes);
    if nodes[|rest|].Directory? {
      var children := nodes[|rest|].children;
      WaitingChildren(nodes[..|rest|], children);
      WaitingAtLeast(nodes[..|rest|] + Nodes(children));
    }
  }

  lemma StartAccounts(root: Node, listed: set<string>, dist: Node)
    requires Located(root, "dist") == Option.Some(dist)
    ensures Accounts(root, listed, dist, ["dist"], [dist], 0)
  {
    hide Located, Split, Clean;
    assert [dist][..0] == [];
    assert Waiting([dist]) == Waiting([]) + Count([dist][0]);
    CleanOne(listed, dist, "dist");
  }

  /**
   Walks everything below dist. It succeeds exactly when that is clean and has at most 4000 nodes; the bound
   on visited nodes is never what stops it, because pending and visited together stay within the bound.
   */
  method WalkTree(root: Node, listed: set<string>) returns (fault: Option<WalkFault>)
    requires WellFormed(root)
    ensures fault.None? <==> var dist := Located(root, "dist");
            dist.Some? && Clean(listed, dist.value, "dist") && Count(dist.value) <= MAX_NODES
    ensures fault != Option.Some(VisitedBound)
  {
    hide Accounts, Located, Clean, Split, WellFormed, Count, Waiting, Pushed, Nodes;
    var pending := ["dist"];
    var visited := 0;
    if Located(root, "dist").None? {
      return Option.Some(Missing);
    }
    ghost var dist := Located(root, "dist").value;
    ghost var nodes := [dist];
    StartAccounts(root, listed, dist);
    while pending != []
      invariant Accounts(root, listed, dist, pending, nodes, visited)
      invariant |pending| + visited <= MAX_NODES
      decreases Waiting(nodes)
    {
      var path, rest := pending[|pending| - 1], pending[..|pending| - 1];
      assert pending == rest + [path];
      TopNode(root, listed, dist, rest, path, nodes, visited);
      ghost var restNodes, top := nodes[..|rest|], nodes[|rest|];
      visited := visited + 1;
      if visited > MAX_NODES {
        return Option.Some(VisitedBound);
      }
      if |Split(path)| > MAX_PARTS {
        DeepIsUnclean(listed, top, path);
        UncleanNode(root, listed, dist, rest, path, restNodes, top, visited - 1);
        return Option.Some(TooDeep);
      }
      var node := Located(root, path).value;
      if node.Directory? {
        pending := rest;
        for i := 0 to |node.children|
          invariant pending == rest + Pushed(path, node.children[..i]) && |pending| + visited <= MAX_NODES
        {
          if |pending| + visited >= MAX_NODES {
            return Option.Some(PendingBound);
          }
          PushedNext(rest, path, node.children, i);
          pending := pending + [path + "/" + node.children[i].name];
        }
        assert node.children[..|node.children|] == node.children;
        ChildrenAccount(root, listed, dist, rest, path, restNodes, node, visited - 1);
        nodes := restNodes + Nodes(node.children);
      } else {
        LeafAccounts(root, listed, dist, rest, path, restNodes, node, visited - 1);
        LeafClean(listed, node, path);
        if !node.Regular? || path !in listed {
          UncleanNode(root, listed, dist, rest, path, restNodes, node, visited - 1);
          return Option.Some(if node.Link? then Redirected else Unlisted);
        }
        pending, nodes := rest, restNodes;
      }
    }
    EndAccounts(root, listed, dist, nodes, visited);
    fault := Option.None;
  }

  lemma PushedNext(rest: seq<string>, path: string, children: seq<Child>, i: nat)
    requires i < |children|
    ensures rest + Pushed(path, children[..i + 1]) == (rest + Pushed(path, children[..i]))
            + [path + "/" + children[i].name]
  {
  }

  lemma DeepIsUnclean(listed: set<string>, n: Node, path: string)
    requires |Split(path)| > MAX_PARTS
    ensures !Clean(listed, n, path)
  {
  }

  lemma LeafClean(listed: set<string>, n: Node, path: string)
    requires !n.Directory? && |Split(path)| <= MAX_PARTS
    ensures Clean(listed, n, path) <==> n.Regular? && path in listed
  {
  }

  lemma EndAccounts(root: Node, listed: set<string>, dist: Node, nodes: seq<Node>, visited: nat)
    requires Accounts(root, listed, dist, [], nodes, visited)
    ensures Clean(listed, dist, "dist") && Count(dist) == visited
  {
    hide Clean;
  }

  // ---- The whole verification ----

  datatype Verified = Verified(version: string, files: nat, bytes: int, manifestSha256: string, matched: bool)

  /** The content of a regular file of at most `max` bytes. */
  function Read(root: Node, path: string, max: nat): Option<seq<bv8>> {
    if IsRegular(root, path) && |Located(root, path).value.content| <= max
      then Option.Some(Located(root, path).value.content) else Option.None
  }

  predicate FileMatches(host: Host, root: Node, f: RawFile) {
    IsRegular(root, f.path)
    && |Located(root, f.path).value.content| == f.bytes
    && host.digest(Located(root, f.path).value.content) == f.sha256
  }

  /** The manifest of the bundle, when it is readable, has the expected digest if one is given, and is valid. */
  ghost function Declared(host: Host, root: Node, expected: Option<string>): Option<RawManifest> {
    var content := Read(root, "bundle-manifest.json", MANIFEST_LIMIT);
    if (expected.Some? && !IsHash(expected.value)) || content.None?
      || (expected.Some? && host.digest(content.value) != expected.value) then Option.None
    else
      var raw := host.decode(content.value);
      if raw.Some? && ManifestOk(host, raw.value) then raw else Option.None
  }

  /** The manifest file is a regular file of at most 1 MiB, and its digest is the expected one if one is given. */
  lemma DeclaredExactly(host: Host, root: Node, expected: Option<string>, raw: RawManifest)
    ensures Declared(host, root, expected) == Option.Some(raw) <==>
              exists content ::
                && Located(root, "bundle-manifest.json") == Option.Some(Regular(content)) && |content| < 1048577
                && (expected.Some? ==> LowerHex(expected.value) && expected.value == host.digest(content))
                && host.decode(content) == Option.Some(raw) && ManifestOk(host, raw)
  {
    hide ManifestOk, Located;
  }

  ghost predicate Intact(host: Host, root: Node, raw: RawManifest) {
    && (forall f :: f in raw.files ==> FileMatches(host, root, f))
    && Located(root, "dist").Some?
    && Clean(Paths(raw.files), Located(root, "dist").value, "dist") && Count(Located(root, "dist").value) <= MAX_NODES
  }

  /** Verification succeeds exactly when the manifest is valid and the tree is what it declares. */
  method VerifyWindowsBundle(host: Host, root: Node, expected: Option<string>) returns (r: Option<Verified>)
    requires WellFormed(root)
    ensures r.Some? <==>
              Declared(host, root, expected).Some? && Intact(host, root, Declared(host, root, expected).value)
    ensures r.Some? ==> var raw := Declared(host, root, expected).value;
                        && r.value.version == raw.version
                        && r.value.files == |raw.files| && r.value.bytes == Total(raw.files)
                        && r.value.matched == expected.Some?
                        && (expected.Some? ==> r.value.manifestSha256 == expected.value)
  {
    hide ManifestOk, Clean, Count, FileMatches, Located, IsHash, WellFormed;
    if expected.Some? && !IsHash(expected.value) {
      return Option.None;
    }
    var content := Read(root, "bundle-manifest.json", MANIFEST_LIMIT);
    if content.None? || (expected.Some? && host.digest(content.value) != expected.value) {
      return Option.None;
    }
    var raw := host.decode(content.value);
    if raw.None? {
      return Option.None;
    }
    var parsed := ParseManifest(host, raw.value);
    if parsed.None? {
      return Option.None;
    }
    var manifest := parsed.value;
    for i := 0 to |manifest.files|
      invariant forall k :: 0 <= k < i ==> FileMatches(host, root, manifest.files[k])
    {
      if !FileMatches(host, root, manifest.files[i]) {
        return Option.None;
      }
    }
    var fault := WalkTree(root, Paths(manifest.files));
    if fault.Some? {
      return Option.None;
    }
    r := Option.Some(Verified(manifest.version, |manifest.files|, manifest.bytes, host.digest(content.value),
                              expected.Some?));
  }

  // ---- What success means ----

  predicate UnderDist(path: string) {
    Split(path)[0] == "dist"
  }

  /** The text of a path with the given parts below `path`. */
  function Extended(path: string, parts: seq<string>): string
    decreases |parts|
  {
    if parts == [] then path else Extended(path + "/" + parts[0], parts[1..])
  }

  lemma {:induction false} CleanRegularIsListed(listed: set<string>, n: Node, path: string, parts: seq<string>)
    requires Clean(listed, n, path) && At(n, parts).Some? && At(n, parts).value.Regular?
    ensures Extended(path, parts) in listed
  {
    if parts != [] {
      var child := ChildOf(n.children, parts[0]).value;
      var i :| 0 <= i < |n.children| && n.children[i] == Child(parts[0], child);
      CleanRegularIsListed(listed, child, path + "/" + parts[0], parts[1..]);
    }
  }

  /** What may lie at a path: a directory or a listed regular file, not too deep; never a link or a special file. */
  ghost predicate Allowed(listed: set<string>, m: Node, path: string) {
    |Split(path)| <= 40 && (m.Directory? || (m.Regular? && path in listed))
  }

  /** Everything in the tree of `n`, lying at `path`, is allowed where it lies. */
  ghost predicate AllAllowed(listed: set<string>, n: Node, path: string) {
    forall parts :: At(n, parts).Some? ==> Allowed(listed, At(n, parts).value, Extended(path, parts))
  }

  lemma {:induction false} CleanExactly(listed: set<string>, n: Node, path: string)
    requires WellFormed(n)
    ensures Clean(listed, n, path) <==> AllAllowed(listed, n, path)
  {
    hide Split, Allowed, AllAllowed;
    CleanHere(listed, n, path);
    AllowedHere(listed, n, path);
    if n.Directory? {
      forall i | 0 <= i < |n.children|
        ensures var c := n.children[i];
                && (Clean(listed, c.node, path + "/" + c.name) <==> AllAllowed(listed, c.node, path + "/" + c.name))
                && (AllAllowed(listed, n, path) ==> AllAllowed(listed, c.node, path + "/" + c.name))
      {
        CleanExactly(listed, n.children[i].node, path + "/" + n.children[i].name);
        AllowedBelow(listed, n, path, i);
      }
      if Clean(listed, n, path) {
        ChildrenClean(listed, n, path);
        AllowedTogether(listed, n, path);
      }
    }
  }

  lemma ChildrenClean(listed: set<string>, n: Node, path: string)
    requires n.Directory? && Clean(listed, n, path)
    ensures forall i :: 0 <= i < |n.children| ==> Clean(listed, n.children[i].node, path + "/" + n.children[i].name)
  {
  }

  /** The node itself. */
  lemma CleanHere(listed: set<string>, n: Node, path: string)
    ensures Clean(listed, n, path) ==> Allowed(listed, n, path)
    ensures !n.Directory? && Allowed(listed, n, path) ==> Clean(listed, n, path)
    ensures Allowed(listed, n, path) && n.Directory?
            && (forall i :: 0 <= i < |n.children| ==>
                 Clean(listed, n.children[i].node, path + "/" + n.children[i].name))
            ==> Clean(listed, n, path)
  {
  }

  lemma AllowedHere(listed: set<string>, n: Node, path: string)
    ensures AllAllowed(listed, n, path) ==> Allowed(listed, n, path)
    ensures !n.Directory? && Allowed(listed, n, path) ==> AllAllowed(listed, n, path)
  {
    hide Allowed;
    var none: seq<string> := [];
    assert At(n, none) == Option.Some(n) && Extended(path, none) == path;
  }

  lemma AllowedBelow(listed: set<string>, n: Node, path: string, i: nat)
    requires WellFormed(n) && n.Directory? && i < |n.children|
    ensures AllAllowed(listed, n, path) ==>
              AllAllowed(listed, n.children[i].node, path + "/" + n.children[i].name)
  {
    hide Allowed;
    var c := n.children[i];
    OnlyChild(n, c.name, c.node);
    if AllAllowed(listed, n, path) {
      forall parts | At(c.node, parts).Some?
        ensures Allowed(listed, At(c.node, parts).value, Extended(path + "/" + c.name, parts))
      {
        var whole := [c.name] + parts;
        assert whole[1..] == parts && At(n, whole) == At(c.node, parts);
        assert Extended(path, whole) == Extended(path + "/" + c.name, parts);
      }
    }
  }

  lemma AllowedTogether(listed: set<string>, n: Node, path: string)
    requires n.Directory? && Allowed(listed, n, path)
    requires forall i :: 0 <= i < |n.children| ==>
               AllAllowed(listed, n.children[i].node, path + "/" + n.children[i].name)
    ensures AllAllowed(listed, n, path)
  {
    hide Allowed;
    forall parts | At(n, parts).Some?
      ensures Allowed(listed, At(n, parts).value, Extended(path, parts))
    {
      if parts == [] {
        assert At(n, parts) == Option.Some(n) && Extended(path, parts) == path;
      } else {
        var child := ChildOf(n.children, parts[0]).value;
        var i :| 0 <= i < |n.children| && n.children[i] == Child(parts[0], child);
        assert AllAllowed(listed, n.children[i].node, path + "/" + n.children[i].name);
        assert At(child, parts[1..]) == At(n, parts);
      }
    }
  }

  function JoinTail(parts: seq<string>): string {
    if parts == [] then "" else JoinTail(parts[..|parts| - 1]) + ("/" + parts[|parts| - 1])
  }

  /** A path's text from its parts. */
  function Joined(parts: seq<string>): string
    requires parts != []
  {
    parts[0] + JoinTail(parts[1..])
  }

  lemma JoinNewPart(parts: seq<string>)
    requires parts != []
    ensures Joined(parts + [""]) == Joined(parts) + "/"
  {
    assert (parts + [""])[1..] == parts[1..] + [""];
    assert (parts[1..] + [""])[..|parts| - 1] == parts[1..];
  }

  lemma JoinLongerPart(parts: seq<string>, c: char)
    requires parts != []
    ensures Joined(parts[..|parts| - 1] + [parts[|parts| - 1] + [c]]) == Joined(parts) + [c]
  {
    var n := |parts| - 1;
    var longer := parts[..n] + [parts[n] + [c]];
    if n > 0 {
      assert longer[1..] == parts[1..n] + [parts[n] + [c]];
      assert longer[1..][..n - 1] == parts[1..n] && parts[1..][..n - 1] == parts[1..n];
    }
  }

  lemma {:induction false} SplitJoins(path: string)
    ensures Joined(Split(path)) == path
  {
    if path != "" {
      var less, c := path[..|path| - 1], path[|path| - 1];
      SplitJoins(less);
      hide Joined, JoinTail;
      var parts := Split(less);
      assert path == less + [c];
      if c == '/' {
        JoinNewPart(parts);
      } else {
        JoinLongerPart(parts, c);
      }
    }
  }

  lemma {:induction false} ExtendedJoins(path: string, parts: seq<string>)
    ensures Extended(path, parts) == path + JoinTail(parts)
    decreases |parts|
  {
    if parts != [] {
      ExtendedJoins(path + "/" + parts[0], parts[1..]);
      TailFirst(parts);
    }
  }

  lemma {:induction false} TailFirst(parts: seq<string>)
    requires parts != []
    ensures JoinTail(parts) == ("/" + parts[0]) + JoinTail(parts[1..])
  {
    if |parts| > 1 {
      var rest, last := parts[..|parts| - 1], "/" + parts[|parts| - 1];
      TailFirst(rest);
      assert parts[1..][..|parts| - 2] == rest[1..];
      assert JoinTail(parts[1..]) == JoinTail(rest[1..]) + last;
      Associate("/" + parts[0], JoinTail(rest[1..]), last);
    }
  }

  /**
   When verification succeeds, the regular files under dist are exactly the manifest's paths under dist, each
   with the declared content; the paths are distinct even when case is ignored, and the byte total is theirs.
   */
  lemma VerifiedIsExact(host: Host, root: Node, expected: Option<string>, path: string)
    requires WellFormed(root) && Declared(host, root, expected).Some?
             && Intact(host, root, Declared(host, root, expected).value)
    requires UnderDist(path)
    ensures var raw := Declared(host, root, expected).value;
            && (IsRegular(root, path) <==> path in Paths(raw.files))
            && (forall f :: f in raw.files ==>
                  && IsRegular(root, f.path)
                  && host.digest(Located(root, f.path).value.content) == f.sha256
                  && |Located(root, f.path).value.content| == f.bytes)
            && Total(raw.files) <= LIMIT
            && forall i, j :: 0 <= i < j < |raw.files| ==> LowerCase(raw.files[i].path) != LowerCase(raw.files[j].path)
  {
    hide Clean, Count, Split, ManifestOk, Located;
    var raw := Declared(host, root, expected).value;
    assert forall f :: f in raw.files ==> FileMatches(host, root, f);
    if path in Paths(raw.files) {
      var f :| f in raw.files && f.path == path;
      assert FileMatches(host, root, f);
    }
    if IsRegular(root, path) {
      RegularIsListed(root, Paths(raw.files), path);
    }
    ManifestBounds(host, raw);
  }

  /** The file an entry declares is there, with its size and digest. */
  ghost predicate AsDeclared(host: Host, root: Node, f: RawFile) {
    exists content ::
      && Located(root, f.path) == Option.Some(Regular(content))
      && |content| == f.bytes && host.digest(content) == f.sha256
  }

  /**
   A bundle is intact exactly when every file is there as declared, and the tree under dist has at most 4000 nodes,
   each of them allowed where it lies.
   */
  lemma IntactExactly(host: Host, root: Node, raw: RawManifest)
    requires WellFormed(root)
    ensures Intact(host, root, raw) <==>
              && (forall f :: f in raw.files ==> AsDeclared(host, root, f))
              && Located(root, "dist").Some?
              && AllAllowed(Paths(raw.files), Located(root, "dist").value, "dist")
              && Count(Located(root, "dist").value) < 4001
  {
    hide Located, AllAllowed, Clean, Count, Paths, FileMatches, AsDeclared;
    forall f: RawFile
      ensures FileMatches(host, root, f) <==> AsDeclared(host, root, f)
    {
      FileMatchesExactly(host, root, f);
    }
    if Located(root, "dist").Some? {
      LocatedIsWellFormed(root, "dist");
      CleanExactly(Paths(raw.files), Located(root, "dist").value, "dist");
    }
  }

  lemma FileMatchesExactly(host: Host, root: Node, f: RawFile)
    ensures FileMatches(host, root, f) <==> AsDeclared(host, root, f)
  {
    hide Located;
    if FileMatches(host, root, f) {
      var content := Located(root, f.path).value.content;
      assert Located(root, f.path) == Option.Some(Regular(content));
    }
  }

  lemma LocatedIsWellFormed(root: Node, path: string)
    requires WellFormed(root) && Located(root, path).Some?
    ensures WellFormed(Located(root, path).value)
  {
    AtIsWellFormed(root, Split(path));
  }

  lemma {:induction false} AtIsWellFormed(n: Node, parts: seq<string>)
    requires WellFormed(n) && At(n, parts).Some?
    ensures WellFormed(At(n, parts).value)
  {
    if parts != [] {
      var child := ChildOf(n.children, parts[0]).value;
      var i :| 0 <= i < |n.children| && n.children[i] == Child(parts[0], child);
      AtIsWellFormed(child, parts[1..]);
    }
  }

  lemma SplitDist()
    ensures Split("dist") == ["dist"]
  {
    assert "" + ['d'] == "d" && "d" + ['i'] == "di" && "di" + ['s'] == "dis" && "dis" + ['t'] == "dist";
    SplitMore("", "", 'd');
    SplitMore("d", "d", 'i');
    SplitMore("di", "di", 's');
    SplitMore("dis", "dis", 't');
  }

  lemma SplitMore(path: string, part: string, c: char)
    requires Split(path) == [part] && c != '/'
    ensures Split(path + [c]) == [part + [c]]
  {
    assert (path + [c])[..|path|] == path;
  }

  lemma ManifestBounds(host: Host, raw: RawManifest)
    requires ManifestOk(host, raw)
    ensures Total(raw.files) <= LIMIT
    ensures forall i, j :: 0 <= i < j < |raw.files| ==> LowerCase(raw.files[i].path) != LowerCase(raw.files[j].path)
  {
  }

  lemma AtFirst(n: Node, parts: seq<string>)
    requires parts != [] && At(n, [parts[0]]).Some?
    ensures At(n, parts) == At(At(n, [parts[0]]).value, parts[1..])
  {
    assert [parts[0]][1..] == [];
    assert n.Directory?;
    var child := ChildOf(n.children, parts[0]);
    assert child.Some? && At(n, [parts[0]]) == At(child.value, []);
  }

  lemma RegularIsListed(root: Node, listed: set<string>, path: string)
    requires Located(root, "dist").Some? && Clean(listed, Located(root, "dist").value, "dist")
    requires UnderDist(path) && IsRegular(root, path)
    ensures path in listed
  {
    hide Clean, Split, At;
    var parts := Split(path);
    var dist := Located(root, "dist").value;
    SplitDist();
    assert parts[0] == "dist";
    assert At(root, ["dist"]) == Option.Some(dist);
    AtFirst(root, parts);
    CleanRegularIsListed(listed, dist, "dist", parts[1..]);
    SplitJoins(path);
    ExtendedJoins("dist", parts[1..]);
  }
}
