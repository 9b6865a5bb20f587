/**
 Validation and canonical form of a release's bill of materials (scripts/release-sbom-validation.ts).
 Inputs are past their schema; hashing, locale order and the version pattern are parameters.
 */
module ReleaseSbom {
  import opened Outcome
  import opened Collections
  import opened Sorting
  import opened TextOrder

  datatype Kind = Application | Library

  /** A parsed address; `path` is percent-decoded. */
  datatype Address = Address(protocol: string, host: string, port: string, user: string, password: string,
                             search: string, fragment: string, path: string)

  datatype Algorithm = Sha512 | Sha256 | Sha1

  datatype Checksum = Checksum(alg: Algorithm, content: string)

  datatype Distribution = Distribution(url: Address, hashes: seq<Checksum>)

  datatype Component = Component(
    kind: Kind, group: Option<string>, name: string, version: string, purl: string, ref: string,
    distributions: seq<Distribution>
  )

  datatype Row = Row(ref: string, dependsOn: seq<string>)

  datatype Property = Property(name: string, value: string)

  /** `properties` is None when the input has none. */
  datatype Bom = Bom(root: Component, properties: Option<seq<Property>>, components: seq<Component>, rows: seq<Row>)

  datatype Manifest = Manifest(name: string, version: string, dependencies: map<string, string>,
                               optional: map<string, string>)

  /** What the environment provides: hashes, the locale order of text, and the exact-version pattern. */
  datatype Host = Host(
    digest: seq<bv8> -> string, manifestDigest: Manifest -> string,
    localeNoLater: (string, string) -> bool, exactVersion: string -> bool
  )

  ghost predicate HostOk(host: Host) {
    && TotalPreorder(host.localeNoLater)
    && forall a, b :: host.localeNoLater(a, b) && host.localeNoLater(b, a) ==> a == b
  }

  datatype SbomError =
    WrongApplication | BadIdentity | NotLibrary | WrongRegistry | BadChecksum
    | BadGraph | MissingNodes | WrongRootLinks | Unreachable | StaleBinding

  // ---- Components ----

  function Purl(name: string, version: string): string {
    "pkg:npm/" + (if name != "" && name[0] == '@' then "%40" + name[1..] else name) + "@" + version
  }

  function FullName(c: Component): string {
    if c.group.Some? && c.group.value != "" then c.group.value + "/" + c.name else c.name
  }

  predicate IdentityOk(c: Component) {
    && !(c.group.Some? && '/' in c.name)
    && c.purl == Purl(FullName(c), c.version)
    && c.ref == c.purl
  }

  function LastSegment(s: string): string {
    if '/' in s then LastSegment(s[1..]) else s
  }

  predicate RegistryOk(c: Component, d: Distribution) {
    && d.url.protocol == "https:" && d.url.host == "registry.npmjs.org"
    && d.url.port == "" && d.url.user == "" && d.url.password == "" && d.url.search == "" && d.url.fragment == ""
    && d.url.path == "/" + FullName(c) + "/-/" + LastSegment(c.name) + "-" + c.version + ".tgz"
  }

  predicate ChecksumOk(h: Checksum) {
    |h.content| == match h.alg case Sha512 => 128 case Sha256 => 64 case Sha1 => 40
  }

  predicate DistributionOk(c: Component, d: Distribution) {
    RegistryOk(c, d) && forall h :: h in d.hashes ==> ChecksumOk(h)
  }

  predicate ComponentOk(c: Component) {
    c.kind == Library && forall d :: d in c.distributions ==> DistributionOk(c, d)
  }

  function Identities(bom: Bom): seq<Component> {
    [bom.root] + bom.components
  }

  // ---- What the texts are ----

  /** `full` is the name of a component: its group and name with a slash between them, or its name alone. */
  ghost predicate Names(full: string, c: Component) {
    match c.group
    case None => full == c.name
    case Some(group) => full == if group == "" then c.name else group + "/" + c.name
  }

  /** `purl` names the package `full` at a version; the at sign of a scope is percent-encoded. */
  ghost predicate Purls(purl: string, full: string, version: string) {
    && (forall scoped :: full == "@" + scoped ==> purl == "pkg:npm/%40" + scoped + "@" + version)
    && ((forall scoped :: full != "@" + scoped) ==> purl == "pkg:npm/" + full + "@" + version)
  }

  lemma PurlIs(full: string, version: string, purl: string)
    ensures purl == Purl(full, version) <==> Purls(purl, full, version)
  {
    if full != "" && full[0] == '@' {
      assert full == "@" + full[1..];
      forall scoped | full == "@" + scoped
        ensures scoped == full[1..]
      {
      }
      var encoded := "pkg:npm/" + ("%40" + full[1..]) + "@" + version;
      assert encoded == "pkg:npm/%40" + full[1..] + "@" + version;
      assert Purl(full, version) == encoded;
    }
  }

  /** An identity is valid exactly when its reference is its package address, and a grouped name has no slash. */
  lemma IdentityExactly(c: Component, full: string)
    requires Names(full, c)
    ensures IdentityOk(c) <==>
              c.ref == c.purl && Purls(c.purl, full, c.version) && (c.group.Some? ==> '/' !in c.name)
  {
    assert FullName(c) == full;
    PurlIs(full, c.version, c.purl);
  }

  /** The last part of a text: it has no slash, and what comes before it, if anything, ends in one. */
  ghost predicate IsLast(last: string, s: string) {
    '/' !in last && (s == last || exists before :: s == before + "/" + last)
  }

  lemma {:induction false} LastSegmentIsLast(s: string)
    ensures IsLast(LastSegment(s), s)
  {
    if '/' in s {
      LastSegmentIsLast(s[1..]);
      var last := LastSegment(s[1..]);
      assert s == [s[0]] + s[1..];
      if s[1..] == last {
        assert s[0] == '/';
        assert s == "" + "/" + last;
      } else {
        var before :| s[1..] == before + "/" + last;
        assert s == ([s[0]] + before) + "/" + last;
      }
    }
  }

  /** A distribution is accepted exactly at the public registry's address of its component. */
  lemma RegistryExactly(c: Component, d: Distribution, full: string, last: string)
    requires Names(full, c) && last == LastSegment(c.name)
    ensures IsLast(last, c.name)
    ensures RegistryOk(c, d) <==>
              d.url == Address("https:", "registry.npmjs.org", "", "", "", "", "",
                               "/" + full + "/-/" + last + "-" + c.version + ".tgz")
  {
    assert FullName(c) == full;
    LastSegmentIsLast(c.name);
  }

  /** A checksum has the number of hexadecimal digits of its algorithm. */
  lemma ChecksumExactly(h: Checksum)
    ensures ChecksumOk(h) <==> 4 * |h.content| == match h.alg case Sha512 => 512 case Sha256 => 256 case Sha1 => 160
  {
  }

  // ---- Keyed collections ----

  ghost predicate UniqueKeys<T(!new)>(key: T -> string, items: seq<T>) {
    forall i, j :: 0 <= i < j < |items| ==> key(items[i]) != key(items[j])
  }

  /** `index` maps exactly the keys of `items` to their values. */
  ghost predicate Indexes<T(!new), V(!new)>(key: T -> string, value: T -> V, items: seq<T>, index: map<string, V>) {
    && |index| == |items|
    && (forall x :: x in items ==> key(x) in index && index[key(x)] == value(x))
    && forall k :: k in index ==> exists x :: x in items && key(x) == k
  }

  lemma NextUnique<T(!new), V(!new)>(key: T -> string, value: T -> V, items: seq<T>, index: map<string, V>, x: T)
    requires Indexes(key, value, items, index)
    ensures UniqueKeys(key, items + [x]) <==> UniqueKeys(key, items) && key(x) !in index
  {
    var next := items + [x];
    assert next[|items|] == x;
    assert forall k :: 0 <= k < |items| ==> next[k] == items[k] && items[k] in items;
    if key(x) in index {
      var y :| y in items && key(y) == key(x);
      var k :| 0 <= k < |items| && items[k] == y;
      assert key(next[k]) == key(next[|items|]);
    }
    if UniqueKeys(key, next) {
      assert forall i, j :: 0 <= i < j < |items| ==> key(next[i]) != key(next[j]);
    }
  }

  lemma NextIndexed<T(!new), V(!new)>(key: T -> string, value: T -> V, items: seq<T>, index: map<string, V>, x: T)
    requires Indexes(key, value, items, index) && key(x) !in index
    ensures Indexes(key, value, items + [x], index[key(x) := value(x)])
  {
    var after := index[key(x) := value(x)];
    assert after.Keys == index.Keys + {key(x)};
    forall k | k in after
      ensures exists y :: y in items + [x] && key(y) == k
    {
      if k == key(x) {
        assert x in items + [x];
      } else {
        var y :| y in items && key(y) == k;
        assert y in items + [x];
      }
    }
  }

  ghost predicate AllKeyed<T(!new)>(key: T -> string, ok: T -> bool, items: seq<T>) {
    (forall x :: x in items ==> ok(x)) && UniqueKeys(key, items)
  }

  lemma PrefixKeyed<T(!new)>(key: T -> string, ok: T -> bool, items: seq<T>, i: nat)
    requires i <= |items| && AllKeyed(key, ok, items)
    ensures AllKeyed(key, ok, items[..i])
  {
  }

  lemma NextKeyed<T(!new)>(key: T -> string, ok: T -> bool, items: seq<T>, x: T)
    requires AllKeyed(key, ok, items)
    ensures AllKeyed(key, ok, items + [x]) <==> ok(x) && UniqueKeys(key, items + [x])
  {
    assert x in items + [x];
    assert forall y :: y in items + [x] <==> y in items || y == x;
  }

  // ---- Identities ----

  function RefOf(c: Component): string {
    c.ref
  }

  function Whole(c: Component): Component {
    c
  }

  /** Registers every identity under its reference; None when one is invalid or collides. */
  method Register(identities: seq<Component>) returns (references: Option<map<string, Component>>)
    ensures references.Some? <==> AllKeyed(RefOf, IdentityOk, identities)
    ensures references.Some? ==> Indexes(RefOf, Whole, identities, references.value)
  {
    hide AllKeyed, Indexes, IdentityOk, UniqueKeys;
    var known: map<string, Component> := map[];
    NothingKeyed(RefOf, IdentityOk, Whole);
    for i := 0 to |identities|
      invariant AllKeyed(RefOf, IdentityOk, identities[..i]) && Indexes(RefOf, Whole, identities[..i], known)
    {
      var c := identities[i];
      PrefixGrows(identities, i);
      NextKeyed(RefOf, IdentityOk, identities[..i], c);
      KeyedIsUnique(RefOf, IdentityOk, identities[..i]);
      NextUnique(RefOf, Whole, identities[..i], known, c);
      if !IdentityOk(c) || c.ref in known {
        if AllKeyed(RefOf, IdentityOk, identities) {
          PrefixKeyed(RefOf, IdentityOk, identities, i + 1);
        }
        return None;
      }
      NextIndexed(RefOf, Whole, identities[..i], known, c);
      known := known[c.ref := c];
    }
    assert identities[..|identities|] == identities;
    references := Some(known);
  }

  lemma KeyedIsUnique<T(!new)>(key: T -> string, ok: T -> bool, items: seq<T>)
    requires AllKeyed(key, ok, items)
    ensures UniqueKeys(key, items)
  {
  }

  lemma NothingKeyed<T(!new), V(!new)>(key: T -> string, ok: T -> bool, value: T -> V)
    ensures AllKeyed(key, ok, []) && Indexes(key, value, [], map[])
  {
  }

  // ---- Components ----

  function DistributionFault(c: Component, distributions: seq<Distribution>): Option<SbomError> {
    if distributions == [] then Option.None
    else if !RegistryOk(c, distributions[0]) then Option.Some(WrongRegistry)
    else if exists h :: h in distributions[0].hashes && !ChecksumOk(h) then Option.Some(BadChecksum)
    else DistributionFault(c, distributions[1..])
  }

  /** The first fault found going through the components in order. */
  function FirstFault(components: seq<Component>): Option<SbomError> {
    if components == [] then Option.None
    else if components[0].kind != Library then Option.Some(NotLibrary)
    else
      var fault := DistributionFault(components[0], components[0].distributions);
      if fault.Some? then fault else FirstFault(components[1..])
  }

  lemma {:induction false} NoDistributionFault(c: Component, distributions: seq<Distribution>)
    ensures DistributionFault(c, distributions).None? <==> forall d :: d in distributions ==> DistributionOk(c, d)
  {
    hide RegistryOk, ChecksumOk;
    if distributions != [] {
      NoDistributionFault(c, distributions[1..]);
      assert distributions[0] in distributions;
      assert DistributionFault(c, distributions).None? <==>
          DistributionOk(c, distributions[0]) && DistributionFault(c, distributions[1..]).None?;
      assert forall d :: d in distributions <==> d == distributions[0] || d in distributions[1..];
    }
  }

  lemma {:induction false} NoFault(components: seq<Component>)
    ensures FirstFault(components).None? <==> forall c :: c in components ==> ComponentOk(c)
  {
    hide DistributionOk;
    if components != [] {
      NoFault(components[1..]);
      NoDistributionFault(components[0], components[0].distributions);
      assert components[0] in components;
      assert forall c :: c in components <==> c == components[0] || c in components[1..];
    }
  }

  method CheckComponents(components: seq<Component>) returns (fault: Option<SbomError>)
    ensures fault == FirstFault(components)
  {
    hide RegistryOk, ChecksumOk;
    for i := 0 to |components|
      invariant FirstFault(components) == FirstFault(components[i..])
    {
      var c := components[i];
      if c.kind != Library {
        return Option.Some(NotLibrary);
      }
      for k := 0 to |c.distributions|
        invariant DistributionFault(c, c.distributions) == DistributionFault(c, c.distributions[k..])
      {
        if !RegistryOk(c, c.distributions[k]) {
          return Option.Some(WrongRegistry);
        }
        if exists h :: h in c.distributions[k].hashes && !ChecksumOk(h) {
          return Option.Some(BadChecksum);
        }
      }
    }
    fault := Option.None;
  }

  // ---- Dependency rows ----

  function RowRef(row: Row): string {
    row.ref
  }

  function Links(row: Row): seq<string> {
    Sort(NoLater, row.dependsOn)
  }

  predicate Distinct(s: seq<string>) {
    forall i, j :: 0 <= i < j < |s| ==> s[i] != s[j]
  }

  ghost predicate RowOk(references: set<string>, row: Row) {
    row.ref in references && Distinct(row.dependsOn) && forall d :: d in row.dependsOn ==> d in references
  }

  ghost predicate RowsOk(references: set<string>, rows: seq<Row>) {
    AllKeyed(RowRef, (row: Row) => RowOk(references, row), rows)
  }

  /** Builds the graph with sorted links; None when a row is repeated or names something unknown. */
  method BuildGraph(references: map<string, Component>, rows: seq<Row>)
    returns (graph: Option<map<string, seq<string>>>)
    ensures graph.Some? <==> RowsOk(references.Keys, rows)
    ensures graph.Some? ==> Indexes(RowRef, Links, rows, graph.value)
  {
    hide AllKeyed, Indexes, UniqueKeys;
    var g: map<string, seq<string>> := map[];
    ghost var ok := (row: Row) => RowOk(references.Keys, row);
    NothingKeyed(RowRef, ok, Links);
    for i := 0 to |rows|
      invariant AllKeyed(RowRef, ok, rows[..i]) && Indexes(RowRef, Links, rows[..i], g)
    {
      var row := rows[i];
      PrefixGrows(rows, i);
      NextKeyed(RowRef, ok, rows[..i], row);
      KeyedIsUnique(RowRef, ok, rows[..i]);
      NextUnique(RowRef, Links, rows[..i], g, row);
      if row.ref !in references || row.ref in g || !Distinct(row.dependsOn)
         || exists d :: d in row.dependsOn && d !in references {
        if AllKeyed(RowRef, ok, rows) {
          PrefixKeyed(RowRef, ok, rows, i + 1);
        }
        return Option.None;
      }
      NextIndexed(RowRef, Links, rows[..i], g, row);
      g := g[row.ref := Sort(NoLater, row.dependsOn)];
    }
    assert rows[..|rows|] == rows;
    graph := Option.Some(g);
  }

  // ---- Root links ----

  function Declared(m: Manifest): map<string, string> {
    m.dependencies + m.optional
  }

  /** The component is declared, at its exact version if one is given. */
  predicate AsDeclared(host: Host, declared: map<string, string>, c: Component) {
    FullName(c) in declared && (host.exactVersion(declared[FullName(c)]) ==> declared[FullName(c)] == c.version)
  }

  /** No two linked identities have the same name. */
  ghost predicate OneEach(identities: seq<Component>, links: seq<string>) {
    forall c, d :: c in identities && d in identities && c.ref in links && d.ref in links ==>
      (FullName(c) == FullName(d) ==> c.ref == d.ref)
  }

  /** The linked components are the declared dependencies, one each. */
  ghost predicate LinksMatch(host: Host, declared: map<string, string>, identities: seq<Component>,
                             links: seq<string>) {
    && |links| == |declared|
    && (forall c :: c in identities && c.ref in links ==> AsDeclared(host, declared, c))
    && OneEach(identities, links)
  }

  method CheckRootLinks(host: Host, declared: map<string, string>, ghost identities: seq<Component>,
                        references: map<string, Component>, links: seq<string>) returns (ok: bool)
    requires Indexes(RefOf, Whole, identities, references) && Distinct(links)
    requires forall link :: link in links ==> link in references
    ensures ok <==> LinksMatch(host, declared, identities, links)
  {
    hide FullName;
    if |links| != |declared| {
      return false;
    }
    var names: seq<string> := [];
    for i := 0 to |links|
      invariant |names| == i
      invariant forall k :: 0 <= k < i ==>
                  names[k] == FullName(references[links[k]]) && AsDeclared(host, declared, references[links[k]])
      invariant forall k, n :: 0 <= k < n < i ==> names[k] != names[n]
    {
      var c := references[links[i]];
      Registered(identities, references, links[i]);
      if !AsDeclared(host, declared, c) {
        return false;
      }
      if FullName(c) in names {
        ghost var k :| 0 <= k < i && names[k] == FullName(c);
        Registered(identities, references, links[k]);
        return false;
      }
      names := names + [FullName(c)];
    }
    ok := true;
  }

  /** What is registered under a reference is an identity with that reference. */
  lemma Registered(identities: seq<Component>, references: map<string, Component>, link: string)
    requires Indexes(RefOf, Whole, identities, references) && link in references
    ensures references[link] in identities && references[link].ref == link
  {
    var c :| c in identities && RefOf(c) == link;
    assert references[RefOf(c)] == Whole(c);
  }

  // ---- Reachability ----

  ghost predicate Edge(rows: seq<Row>, a: string, b: string) {
    exists row :: row in rows && row.ref == a && b in row.dependsOn
  }

  ghost predicate IsPath(rows: seq<Row>, path: seq<string>) {
    path != [] && forall i :: 0 <= i < |path| - 1 ==> Edge(rows, path[i], path[i + 1])
  }

  /** Some path of dependencies leads from `a` to `b`. */
  ghost predicate Reaches(rows: seq<Row>, a: string, b: string) {
    exists path :: IsPath(rows, path) && path[0] == a && path[|path| - 1] == b
  }

  lemma ReachesItself(rows: seq<Row>, a: string)
    ensures Reaches(rows, a, a)
  {
    assert IsPath(rows, [a]);
  }

  lemma ReachesFurther(rows: seq<Row>, a: string, b: string, c: string)
    requires Reaches(rows, a, b) && Edge(rows, b, c)
    ensures Reaches(rows, a, c)
  {
    var path :| IsPath(rows, path) && path[0] == a && path[|path| - 1] == b;
    assert IsPath(rows, path + [c]);
  }

  /** A set closed under edges holds the end of every path that starts in it. */
  lemma {:induction false} ClosedHoldsPath(rows: seq<Row>, closed: set<string>, path: seq<string>)
    requires IsPath(rows, path) && path[0] in closed
    requires forall a, b :: a in closed && Edge(rows, a, b) ==> b in closed
    ensures path[|path| - 1] in closed
  {
    if |path| > 1 {
      ClosedHoldsPath(rows, closed, path[..|path| - 1]);
      assert Edge(rows, path[|path| - 2], path[|path| - 1]);
    }
  }

  lemma GraphEdge(rows: seq<Row>, graph: map<string, seq<string>>, a: string, b: string)
    requires Indexes(RowRef, Links, rows, graph) && a in graph
    ensures b in graph[a] <==> Edge(rows, a, b)
  {
    hide Sort;
    forall row | row in rows && row.ref == a
      ensures b in graph[a] <==> b in row.dependsOn
    {
      assert graph[RowRef(row)] == Links(row);
      SameMembers(Links(row), row.dependsOn);
    }
    var row :| row in rows && RowRef(row) == a;
    assert row.ref == a;
  }

  /** The work list visits exactly what the root reaches, whatever cycles or repeated entries there are. */
  method Visit(rows: seq<Row>, graph: map<string, seq<string>>, root: string) returns (visited: set<string>)
    requires Indexes(RowRef, Links, rows, graph) && root in graph && root != ""
    requires forall a, b :: Edge(rows, a, b) ==> b in graph && b != ""
    ensures forall a :: a in visited <==> Reaches(rows, root, a)
    ensures visited <= graph.Keys
  {
    hide Indexes, Edge, Reaches;
    visited := {};
    var pending := [root];
    ReachesItself(rows, root);
    while pending != []
      invariant visited <= graph.Keys
      invariant root in visited || root in pending
      invariant forall a :: a in visited || a in pending ==> a in graph && a != "" && Reaches(rows, root, a)
      invariant forall a, b :: a in visited && Edge(rows, a, b) ==> b in visited || b in pending
      decreases |graph.Keys - visited|, |pending|
    {
      var ref := pending[|pending| - 1];
      ghost var before := pending;
      pending := pending[..|pending| - 1];
      assert forall a :: a in before <==> a in pending || a == ref;
      if ref == "" || ref in visited {
        continue;
      }
      ghost var left := graph.Keys - visited;
      visited := visited + {ref};
      assert graph.Keys - visited == left - {ref};
      forall b
        ensures b in graph[ref] <==> Edge(rows, ref, b)
        ensures b in graph[ref] ==> Reaches(rows, root, b)
      {
        GraphEdge(rows, graph, ref, b);
        if Edge(rows, ref, b) {
          ReachesFurther(rows, root, ref, b);
        }
      }
      pending := pending + graph[ref];
    }
    forall a | Reaches(rows, root, a)
      ensures a in visited
    {
      ReachedIsHeld(rows, visited, root, a);
    }
  }

  lemma ReachedIsHeld(rows: seq<Row>, closed: set<string>, root: string, a: string)
    requires root in closed && Reaches(rows, root, a)
    requires forall x, y :: x in closed && Edge(rows, x, y) ==> y in closed
    ensures a in closed
  {
    var path :| IsPath(rows, path) && path[0] == root && path[|path| - 1] == a;
    ClosedHoldsPath(rows, closed, path);
  }

  // ---- The whole validation ----

  /** The normalised bill. */
  datatype Normalized = Normalized(root: Component, properties: seq<Property>, components: seq<Component>,
                                   rows: seq<Row>)

  function Bindings(host: Host, manifest: Manifest, lockfile: seq<bv8>): seq<Property> {
    [Property("opencareers:lockfile-sha256", host.digest(lockfile)),
     Property("opencareers:runtime-manifest-sha256", host.manifestDigest(manifest)),
     Property("opencareers:inventory-scope", "declared-production-lockfile-all-optional-platforms")]
  }

  function SortedRow(row: Row): Row {
    Row(row.ref, Sort(NoLater, row.dependsOn))
  }

  function SortedRows(rows: seq<Row>): (r: seq<Row>)
    ensures |r| == |rows|
    ensures forall i :: 0 <= i < |rows| ==> r[i] == SortedRow(rows[i])
  {
    seq(|rows|, i requires 0 <= i < |rows| => SortedRow(rows[i]))
  }

  function Canonical(host: Host, bom: Bom, manifest: Manifest, lockfile: seq<bv8>): Normalized {
    Normalized(
      bom.root, Bindings(host, manifest, lockfile),
      Sort((a: Component, b: Component) => host.localeNoLater(a.ref, b.ref), bom.components),
      Sort((a: Row, b: Row) => host.localeNoLater(a.ref, b.ref), SortedRows(bom.rows)))
  }

  ghost function ReferenceSet(identities: seq<Component>): set<string> {
    set c | c in identities :: c.ref
  }

  ghost predicate RootLinksMatch(host: Host, bom: Bom, manifest: Manifest) {
    forall row :: row in bom.rows && row.ref == bom.root.ref ==>
      LinksMatch(host, Declared(manifest), Identities(bom), row.dependsOn)
  }

  ghost predicate AllReached(bom: Bom) {
    forall c :: c in Identities(bom) ==> Reaches(bom.rows, bom.root.ref, c.ref)
  }

  /** The fault the validation reports, if any, in the order in which it looks. */
  ghost function Verdict(host: Host, bom: Bom, manifest: Manifest, lockfile: seq<bv8>,
                         requireBinding: bool): Option<SbomError> {
    if bom.root.kind != Application || FullName(bom.root) != manifest.name || bom.root.version != manifest.version
      then Option.Some(WrongApplication)
    else if !AllKeyed(RefOf, IdentityOk, Identities(bom)) then Option.Some(BadIdentity)
    else if FirstFault(bom.components).Some? then FirstFault(bom.components)
    else if !RowsOk(ReferenceSet(Identities(bom)), bom.rows) then Option.Some(BadGraph)
    else if |bom.rows| != |Identities(bom)| then Option.Some(MissingNodes)
    else if !RootLinksMatch(host, bom, manifest) then Option.Some(WrongRootLinks)
    else if !AllReached(bom) then Option.Some(Unreachable)
    else if requireBinding && bom.properties != Option.Some(Bindings(host, manifest, lockfile))
      then Option.Some(StaleBinding)
    else Option.None
  }

  method NormalizeReleaseSbom(host: Host, bom: Bom, manifest: Manifest, lockfile: seq<bv8>, requireBinding: bool)
    returns (r: Result<Normalized, SbomError>)
    ensures r == match Verdict(host, bom, manifest, lockfile, requireBinding)
                 case Some(fault) => Err(fault)
                 case None => Ok(Canonical(host, bom, manifest, lockfile))
  {
    hide Canonical, FullName, IdentityOk, AllKeyed, RowsOk, AllReached, RootLinksMatch, Indexes, FirstFault, Bindings;
    if bom.root.kind != Application || FullName(bom.root) != manifest.name || bom.root.version != manifest.version {
      return Err(WrongApplication);
    }
    var identities := Identities(bom);
    var registered := Register(identities);
    if registered.None? {
      return Err(BadIdentity);
    }
    var references := registered.value;
    var fault := CheckComponents(bom.components);
    if fault.Some? {
      return Err(fault.value);
    }
    IndexedReferences(identities, references);
    var built := BuildGraph(references, bom.rows);
    if built.None? {
      return Err(BadGraph);
    }
    var graph := built.value;
    IndexSizes(bom, references, graph);
    if |graph| != |references| {
      return Err(MissingNodes);
    }
    var root := bom.root.ref;
    NodesAreReferences(bom, references, graph);
    var matched := CheckRootLinks(host, Declared(manifest), identities, references, graph[root]);
    RootRow(host, bom, manifest, graph);
    if !matched {
      return Err(WrongRootLinks);
    }
    var visited := Visit(bom.rows, graph, root);
    VisitedAll(bom, references, graph, visited);
    if |visited| != |references| {
      return Err(Unreachable);
    }
    if requireBinding && bom.properties != Option.Some(Bindings(host, manifest, lockfile)) {
      return Err(StaleBinding);
    }
    return Ok(Canonical(host, bom, manifest, lockfile));
  }

  lemma IndexedReferences(identities: seq<Component>, references: map<string, Component>)
    requires Indexes(RefOf, Whole, identities, references)
    ensures references.Keys == ReferenceSet(identities)
  {
    forall ref | ref in references
      ensures ref in ReferenceSet(identities)
    {
      var c :| c in identities && RefOf(c) == ref;
      assert c.ref == ref;
    }
    forall ref | ref in ReferenceSet(identities)
      ensures ref in references
    {
      var c :| c in identities && c.ref == ref;
      assert RefOf(c) in references;
    }
  }

  lemma IndexSizes(bom: Bom, references: map<string, Component>, graph: map<string, seq<string>>)
    requires Indexes(RefOf, Whole, Identities(bom), references) && Indexes(RowRef, Links, bom.rows, graph)
    ensures |references| == |Identities(bom)| && |graph| == |bom.rows|
  {
  }

  lemma {:induction false} DistinctByCount(s: seq<string>)
    ensures Distinct(s) <==> forall x :: multiset(s)[x] <= 1
  {
    if s != [] {
      var rest := s[1..];
      DistinctByCount(rest);
      assert s == [s[0]] + rest;
      assert multiset(s) == multiset{s[0]} + multiset(rest);
      if Distinct(s) {
        assert Distinct(rest);
        assert s[0] !in rest;
        assert multiset(rest)[s[0]] == 0;
      } else if Distinct(rest) {
        var i, j :| 0 <= i < j < |s| && s[i] == s[j];
        assert i == 0 && s[0] == rest[j - 1];
        assert multiset(s)[s[0]] >= 2;
      } else {
        var x :| multiset(rest)[x] > 1;
        assert multiset(s)[x] > 1;
      }
    }
  }

  lemma SameDistinct(s: seq<string>, t: seq<string>)
    requires multiset(s) == multiset(t)
    ensures Distinct(s) <==> Distinct(t)
  {
    DistinctByCount(s);
    DistinctByCount(t);
  }

  lemma EdgesStayInside(references: set<string>, rows: seq<Row>)
    requires RowsOk(references, rows)
    ensures forall a, b :: Edge(rows, a, b) ==> b in references
  {
    forall a, b | Edge(rows, a, b)
      ensures b in references
    {
      var row :| row in rows && row.ref == a && b in row.dependsOn;
      assert RowOk(references, row);
    }
  }

  lemma ReferencesAreNamed(identities: seq<Component>, references: map<string, Component>)
    requires Indexes(RefOf, Whole, identities, references) && AllKeyed(RefOf, IdentityOk, identities)
    ensures "" !in references
  {
    forall c | c in identities
      ensures RefOf(c) != ""
    {
      assert IdentityOk(c);
    }
  }

  /** With as many rows as references, every reference has a row, and links and edges stay within the graph. */
  lemma NodesAreReferences(bom: Bom, references: map<string, Component>, graph: map<string, seq<string>>)
    requires Indexes(RefOf, Whole, Identities(bom), references) && Indexes(RowRef, Links, bom.rows, graph)
    requires AllKeyed(RefOf, IdentityOk, Identities(bom)) && RowsOk(references.Keys, bom.rows)
             && |graph| == |references|
    ensures graph.Keys == references.Keys
    ensures bom.root.ref in graph && bom.root.ref != "" && Distinct(graph[bom.root.ref])
    ensures forall link :: link in graph[bom.root.ref] ==> link in references
    ensures forall a, b :: Edge(bom.rows, a, b) ==> b in graph && b != ""
  {
    hide IdentityOk, Sort, Edge;
    forall ref | ref in graph
      ensures ref in references
    {
      var row :| row in bom.rows && RowRef(row) == ref;
      assert RowOk(references.Keys, row);
    }
    SubsetSize(graph.Keys, references.Keys);
    ReferencesAreNamed(Identities(bom), references);
    EdgesStayInside(references.Keys, bom.rows);
    assert bom.root in Identities(bom) && RefOf(bom.root) in references;
    var row :| row in bom.rows && RowRef(row) == bom.root.ref;
    assert RowOk(references.Keys, row) && graph[RowRef(row)] == Links(row);
    SameDistinct(Links(row), row.dependsOn);
    SameMembers(Links(row), row.dependsOn);
  }

  lemma LinksMatchAnyOrder(host: Host, declared: map<string, string>, identities: seq<Component>, s: seq<string>,
                           t: seq<string>)
    requires multiset(s) == multiset(t) && LinksMatch(host, declared, identities, s)
    ensures LinksMatch(host, declared, identities, t)
  {
    hide AsDeclared, FullName;
    SameMembers(s, t);
    assert |multiset(s)| == |s| && |multiset(t)| == |t|;
  }

  lemma RootRow(host: Host, bom: Bom, manifest: Manifest, graph: map<string, seq<string>>)
    requires Indexes(RowRef, Links, bom.rows, graph) && bom.root.ref in graph
    ensures LinksMatch(host, Declared(manifest), Identities(bom), graph[bom.root.ref]) <==>
              RootLinksMatch(host, bom, manifest)
  {
    hide Sort, LinksMatch;
    var row :| row in bom.rows && RowRef(row) == bom.root.ref;
    assert row.ref == bom.root.ref;
    forall other | other in bom.rows && other.ref == bom.root.ref
      ensures LinksMatch(host, Declared(manifest), Identities(bom), graph[bom.root.ref])
         <==> LinksMatch(host, Declared(manifest), Identities(bom), other.dependsOn)
    {
      assert graph[RowRef(other)] == Links(other);
      if LinksMatch(host, Declared(manifest), Identities(bom), Links(other)) {
        LinksMatchAnyOrder(host, Declared(manifest), Identities(bom), Links(other), other.dependsOn);
      }
      if LinksMatch(host, Declared(manifest), Identities(bom), other.dependsOn) {
        LinksMatchAnyOrder(host, Declared(manifest), Identities(bom), other.dependsOn, Links(other));
      }
    }
  }

  lemma VisitedAll(bom: Bom, references: map<string, Component>, graph: map<string, seq<string>>, visited: set<string>)
    requires Indexes(RefOf, Whole, Identities(bom), references) && graph.Keys == references.Keys
             && visited <= graph.Keys
    requires forall a :: a in visited <==> Reaches(bom.rows, bom.root.ref, a)
    ensures |visited| == |references| <==> AllReached(bom)
  {
    hide Reaches;
    SubsetSize(visited, references.Keys);
    if |visited| == |references| {
      forall c | c in Identities(bom)
        ensures Reaches(bom.rows, bom.root.ref, c.ref)
      {
        assert RefOf(c) in references;
      }
    }
    if AllReached(bom) {
      forall ref | ref in references
        ensures ref in visited
      {
        var c :| c in Identities(bom) && RefOf(c) == ref;
      }
      assert visited == references.Keys;
    }
  }

  // ---- Order does not matter ----

  /** The components are the same, and so are the rows up to the order of their links. */
  ghost predicate SameInventory(a: Bom, b: Bom) {
    && a.root == b.root
    && multiset(a.components) == multiset(b.components)
    && multiset(SortedRows(a.rows)) == multiset(SortedRows(b.rows))
  }

  lemma SameIdentities(a: Bom, b: Bom)
    requires SameInventory(a, b)
    ensures multiset(Identities(a)) == multiset(Identities(b))
    ensures forall c :: c in Identities(a) <==> c in Identities(b)
    ensures forall c :: c in a.components <==> c in b.components
    ensures |Identities(a)| == |Identities(b)|
  {
    SameMembers(Identities(a), Identities(b));
    SameMembers(a.components, b.components);
    assert |multiset(Identities(a))| == |Identities(a)| && |multiset(Identities(b))| == |Identities(b)|;
  }

  ghost function KeySet<T(!new)>(key: T -> string, s: seq<T>): (r: set<string>)
    ensures forall k :: k in r <==> exists x :: x in s && key(x) == k
  {
    set x | x in s :: key(x)
  }

  lemma {:induction false} UniqueKeysByCount<T(!new)>(key: T -> string, s: seq<T>)
    ensures |KeySet(key, s)| <= |s|
    ensures UniqueKeys(key, s) <==> |KeySet(key, s)| == |s|
  {
    if s != [] {
      var rest, x := s[..|s| - 1], s[|s| - 1];
      UniqueKeysByCount(key, rest);
      assert forall y :: y in s <==> y in rest || y == x by {
        assert s == rest + [x];
      }
      assert KeySet(key, s) == KeySet(key, rest) + {key(x)};
      if UniqueKeys(key, s) {
        assert UniqueKeys(key, rest);
        assert key(x) !in KeySet(key, rest);
      }
    }
  }

  /** Unique keys depend only on which items there are and how often. */
  lemma SameUniqueKeys<T(!new)>(key: T -> string, s: seq<T>, t: seq<T>)
    requires multiset(s) == multiset(t)
    ensures UniqueKeys(key, s) <==> UniqueKeys(key, t)
  {
    UniqueKeysByCount(key, s);
    UniqueKeysByCount(key, t);
    SameMembers(s, t);
    assert KeySet(key, s) == KeySet(key, t);
    assert |multiset(s)| == |s| && |multiset(t)| == |t|;
  }

  lemma SameKeyed<T(!new)>(key: T -> string, ok: T -> bool, s: seq<T>, t: seq<T>)
    requires multiset(s) == multiset(t)
    ensures AllKeyed(key, ok, s) <==> AllKeyed(key, ok, t)
  {
    SameUniqueKeys(key, s, t);
    SameMembers(s, t);
  }

  // ---- Rows with sorted links ----

  lemma RowSorted(row: Row)
    ensures multiset(SortedRow(row).dependsOn) == multiset(row.dependsOn)
    ensures forall d :: d in SortedRow(row).dependsOn <==> d in row.dependsOn
    ensures |SortedRow(row).dependsOn| == |row.dependsOn|
    ensures Distinct(SortedRow(row).dependsOn) <==> Distinct(row.dependsOn)
  {
    hide Sort;
    SameMembers(SortedRow(row).dependsOn, row.dependsOn);
    SameDistinct(SortedRow(row).dependsOn, row.dependsOn);
  }

  /** Two sequences that agree position by position on key and validity. */
  lemma KeyedPointwise<T(!new)>(key: T -> string, ok: T -> bool, s: seq<T>, t: seq<T>)
    requires |s| == |t|
    requires forall i :: 0 <= i < |s| ==> key(s[i]) == key(t[i]) && (ok(s[i]) <==> ok(t[i]))
    ensures AllKeyed(key, ok, s) ==> AllKeyed(key, ok, t)
  {
  }

  lemma RowsSorted(references: set<string>, rows: seq<Row>)
    ensures RowsOk(references, rows) <==> RowsOk(references, SortedRows(rows))
  {
    hide SortedRow, AllKeyed;
    var sorted := SortedRows(rows);
    var ok := (row: Row) => RowOk(references, row);
    forall i | 0 <= i < |rows|
      ensures RowRef(rows[i]) == RowRef(sorted[i]) && (ok(rows[i]) <==> ok(sorted[i]))
    {
      RefKept(rows[i]);
      RowSorted(rows[i]);
    }
    KeyedPointwise(RowRef, ok, rows, sorted);
    KeyedPointwise(RowRef, ok, sorted, rows);
  }

  lemma RefKept(row: Row)
    ensures SortedRow(row).ref == row.ref
  {
  }

  lemma EdgesSorted(rows: seq<Row>, a: string, b: string)
    ensures Edge(rows, a, b) <==> Edge(SortedRows(rows), a, b)
  {
    hide SortedRow;
    var sorted := SortedRows(rows);
    forall i | 0 <= i < |rows|
      ensures sorted[i].ref == rows[i].ref && (b in sorted[i].dependsOn <==> b in rows[i].dependsOn)
    {
      RowSorted(rows[i]);
      RefKept(rows[i]);
    }
    if Edge(rows, a, b) {
      var i :| 0 <= i < |rows| && rows[i].ref == a && b in rows[i].dependsOn;
      assert sorted[i] in sorted;
    }
    if Edge(sorted, a, b) {
      var i :| 0 <= i < |sorted| && sorted[i].ref == a && b in sorted[i].dependsOn;
      assert rows[i] in rows;
    }
  }

  lemma SameEdges(a: Bom, b: Bom)
    requires SameInventory(a, b)
    ensures forall x, y :: Edge(a.rows, x, y) <==> Edge(b.rows, x, y)
  {
    SameMembers(SortedRows(a.rows), SortedRows(b.rows));
    forall x, y
      ensures Edge(a.rows, x, y) <==> Edge(b.rows, x, y)
    {
      EdgesSorted(a.rows, x, y);
      EdgesSorted(b.rows, x, y);
    }
  }

  lemma SameReach(a: seq<Row>, b: seq<Row>, x: string, y: string)
    requires forall u, v :: Edge(a, u, v) ==> Edge(b, u, v)
    requires Reaches(a, x, y)
    ensures Reaches(b, x, y)
  {
    var path :| IsPath(a, path) && path[0] == x && path[|path| - 1] == y;
    assert IsPath(b, path);
  }

  lemma ReachedAlike(a: Bom, b: Bom)
    requires SameInventory(a, b) && AllReached(a)
    ensures AllReached(b)
  {
    hide Reaches, Edge;
    SameEdges(a, b);
    SameIdentities(a, b);
    forall c | c in Identities(b)
      ensures Reaches(b.rows, b.root.ref, c.ref)
    {
      SameReach(a.rows, b.rows, a.root.ref, c.ref);
    }
  }

  lemma RootLinksAlike(host: Host, a: Bom, b: Bom, manifest: Manifest)
    requires SameInventory(a, b) && RootLinksMatch(host, a, manifest)
    ensures RootLinksMatch(host, b, manifest)
  {
    hide LinksMatch, SortedRow;
    SameIdentities(a, b);
    SameMembers(SortedRows(a.rows), SortedRows(b.rows));
    forall row | row in b.rows && row.ref == b.root.ref
      ensures LinksMatch(host, Declared(manifest), Identities(b), row.dependsOn)
    {
      var j :| 0 <= j < |b.rows| && b.rows[j] == row;
      assert SortedRows(b.rows)[j] == SortedRow(row) && SortedRow(row) in SortedRows(b.rows);
      var i :| 0 <= i < |a.rows| && SortedRows(a.rows)[i] == SortedRow(row);
      RefKept(row);
      RefKept(a.rows[i]);
      RowSorted(row);
      RowSorted(a.rows[i]);
      LinksMatchAnyOrder(host, Declared(manifest), Identities(a), a.rows[i].dependsOn, row.dependsOn);
      LinksMatchSameIdentities(host, Declared(manifest), Identities(a), Identities(b), row.dependsOn);
    }
  }

  lemma LinksMatchSameIdentities(host: Host, declared: map<string, string>, a: seq<Component>, b: seq<Component>,
                                 links: seq<string>)
    requires LinksMatch(host, declared, a, links) && forall c :: c in a <==> c in b
    ensures LinksMatch(host, declared, b, links)
  {
    hide AsDeclared, FullName;
  }

  lemma SameBomFaults(host: Host, a: Bom, b: Bom, manifest: Manifest)
    requires SameInventory(a, b)
    ensures AllKeyed(RefOf, IdentityOk, Identities(a)) <==> AllKeyed(RefOf, IdentityOk, Identities(b))
    ensures FirstFault(a.components).None? <==> FirstFault(b.components).None?
    ensures RowsOk(ReferenceSet(Identities(a)), a.rows) <==> RowsOk(ReferenceSet(Identities(b)), b.rows)
    ensures |a.rows| == |b.rows| && |Identities(a)| == |Identities(b)|
  {
    hide SortedRow, ComponentOk, RowOk, IdentityOk;
    SameIdentities(a, b);
    SameKeyed(RefOf, IdentityOk, Identities(a), Identities(b));
    NoFault(a.components);
    NoFault(b.components);
    var references := ReferenceSet(Identities(a));
    assert references == ReferenceSet(Identities(b));
    RowsSorted(references, a.rows);
    RowsSorted(references, b.rows);
    SameKeyed(RowRef, (row: Row) => RowOk(references, row), SortedRows(a.rows), SortedRows(b.rows));
    assert |multiset(SortedRows(a.rows))| == |a.rows| && |multiset(SortedRows(b.rows))| == |b.rows|;
  }

  /** Inputs that differ only in the order of components, rows or links are accepted alike. */
  lemma AcceptedInAnyOrder(host: Host, a: Bom, b: Bom, manifest: Manifest, lockfile: seq<bv8>, requireBinding: bool)
    requires SameInventory(a, b) && (requireBinding ==> a.properties == b.properties)
    ensures Verdict(host, a, manifest, lockfile, requireBinding).None? <==>
              Verdict(host, b, manifest, lockfile, requireBinding).None?
  {
    hide AllKeyed, RowsOk, AllReached, RootLinksMatch, FirstFault, Bindings, FullName;
    SameBomFaults(host, a, b, manifest);
    assert SameInventory(b, a);
    if AllReached(a) { ReachedAlike(a, b); }
    if AllReached(b) { ReachedAlike(b, a); }
    if RootLinksMatch(host, a, manifest) { RootLinksAlike(host, a, b, manifest); }
    if RootLinksMatch(host, b, manifest) { RootLinksAlike(host, b, a, manifest); }
  }

  /** With unique references, the locale order leaves no ties. */
  lemma NoTies<T(!new)>(host: Host, key: T -> string, s: seq<T>, leq: (T, T) -> bool)
    requires HostOk(host) && UniqueKeys(key, s)
    requires forall x, y :: leq(x, y) <==> host.localeNoLater(key(x), key(y))
    ensures TotalPreorder(leq)
    ensures forall x, y :: x in s && y in s && leq(x, y) && leq(y, x) ==> x == y
  {
    forall x, y | x in s && y in s && leq(x, y) && leq(y, x)
      ensures x == y
    {
      var i :| 0 <= i < |s| && s[i] == x;
      var j :| 0 <= j < |s| && s[j] == y;
      assert key(s[i]) == key(s[j]);
      assert i == j;
    }
  }

  lemma SameSort<T(!new)>(host: Host, key: T -> string, s: seq<T>, t: seq<T>, leq: (T, T) -> bool)
    requires HostOk(host) && UniqueKeys(key, s) && multiset(s) == multiset(t)
    requires forall x, y :: leq(x, y) <==> host.localeNoLater(key(x), key(y))
    ensures Sort(leq, s) == Sort(leq, t)
  {
    NoTies(host, key, s, leq);
    SortIsCanonical(leq, s, t);
  }

  lemma ComponentsUnique(bom: Bom)
    requires UniqueKeys(RefOf, Identities(bom))
    ensures UniqueKeys(RefOf, bom.components)
  {
    forall i, j | 0 <= i < j < |bom.components|
      ensures RefOf(bom.components[i]) != RefOf(bom.components[j])
    {
      assert Identities(bom)[i + 1] == bom.components[i] && Identities(bom)[j + 1] == bom.components[j];
    }
  }

  /** The normalised bill depends on neither the order of components and rows nor that of links. */
  lemma CanonicalInAnyOrder(host: Host, a: Bom, b: Bom, manifest: Manifest, lockfile: seq<bv8>, requireBinding: bool)
    requires HostOk(host) && SameInventory(a, b)
    requires Verdict(host, a, manifest, lockfile, requireBinding).None?
    ensures Canonical(host, a, manifest, lockfile) == Canonical(host, b, manifest, lockfile)
  {
    hide AllReached, RootLinksMatch, FirstFault, Bindings, FullName, IdentityOk, RowOk, Sort, SortedRow, HostOk,
      ReferenceSet;
    ComponentsUnique(a);
    SameSort(host, RefOf, a.components, b.components, (x: Component, y: Component) => host.localeNoLater(x.ref, y.ref));
    RowsSorted(ReferenceSet(Identities(a)), a.rows);
    SameSort(host, RowRef, SortedRows(a.rows), SortedRows(b.rows),
             (x: Row, y: Row) => host.localeNoLater(x.ref, y.ref));
  }

  /** The normalised bill read back as an input. */
  function AsInput(n: Normalized): Bom {
    Bom(n.root, Option.Some(n.properties), n.components, n.rows)
  }

  lemma SortedRowTwice(row: Row)
    ensures SortedRow(SortedRow(row)) == SortedRow(row)
  {
    TextIsOrdered();
    RowSorted(row);
    SortIsCanonical(NoLater, row.dependsOn, SortedRow(row).dependsOn);
  }

  lemma {:induction false} SortedRowsTwice(rows: seq<Row>)
    requires forall row :: row in rows ==> SortedRow(row) == row
    ensures SortedRows(rows) == rows
  {
    hide SortedRow;
    forall i | 0 <= i < |rows|
      ensures SortedRows(rows)[i] == rows[i]
    {
      assert rows[i] in rows;
    }
  }

  lemma NormalizedIsSameInventory(host: Host, bom: Bom, manifest: Manifest, lockfile: seq<bv8>)
    ensures SameInventory(AsInput(Canonical(host, bom, manifest, lockfile)), bom)
  {
    hide Bindings, Sort, SortedRow;
    var rows := Canonical(host, bom, manifest, lockfile).rows;
    SameMembers(rows, SortedRows(bom.rows));
    forall row | row in rows
      ensures SortedRow(row) == row
    {
      var i :| 0 <= i < |bom.rows| && SortedRows(bom.rows)[i] == row;
      SortedRowTwice(bom.rows[i]);
    }
    SortedRowsTwice(rows);
  }

  /** Normalising an accepted bill again, binding required, succeeds and changes nothing. */
  lemma RenormalizingIsIdentity(host: Host, bom: Bom, manifest: Manifest, lockfile: seq<bv8>, requireBinding: bool)
    requires HostOk(host) && Verdict(host, bom, manifest, lockfile, requireBinding).None?
    ensures var once := Canonical(host, bom, manifest, lockfile);
            && Verdict(host, AsInput(once), manifest, lockfile, true).None?
            && Canonical(host, AsInput(once), manifest, lockfile) == once
  {
    var once := Canonical(host, bom, manifest, lockfile);
    CanonicalIsBound(host, bom, manifest, lockfile);
    NormalizedIsSameInventory(host, bom, manifest, lockfile);
    UnboundVerdict(host, bom, manifest, lockfile, requireBinding);
    hide Canonical, SameInventory, Verdict, Bindings, HostOk;
    AcceptedInAnyOrder(host, AsInput(once), bom, manifest, lockfile, false);
    UnboundVerdict(host, AsInput(once), manifest, lockfile, true);
    CanonicalInAnyOrder(host, AsInput(once), bom, manifest, lockfile, false);
  }

  lemma CanonicalIsBound(host: Host, bom: Bom, manifest: Manifest, lockfile: seq<bv8>)
    ensures Canonical(host, bom, manifest, lockfile).properties == Bindings(host, manifest, lockfile)
  {
    hide Bindings, Sort, SortedRow;
  }

  /** A canonical bill carries both digests, and the scope of its inventory, under their names. */
  lemma CanonicalNamesItsInputs(host: Host, bom: Bom, manifest: Manifest, lockfile: seq<bv8>)
    ensures var properties := Canonical(host, bom, manifest, lockfile).properties;
            && properties[..1] == [Property("opencareers:lockfile-sha256", host.digest(lockfile))]
            && properties[1..2] == [Property("opencareers:runtime-manifest-sha256", host.manifestDigest(manifest))]
            && properties[2..] ==
               [Property("opencareers:inventory-scope", "declared-production-lockfile-all-optional-platforms")]
  {
    hide Sort, SortedRow;
  }

  /** Binding adds one condition to an otherwise accepted bill. */
  lemma UnboundVerdict(host: Host, bom: Bom, manifest: Manifest, lockfile: seq<bv8>, requireBinding: bool)
    ensures Verdict(host, bom, manifest, lockfile, requireBinding).None?
       <==> Verdict(host, bom, manifest, lockfile, false).None?
            && (requireBinding ==> bom.properties == Option.Some(Bindings(host, manifest, lockfile)))
  {
    hide AllKeyed, RowsOk, AllReached, RootLinksMatch, FirstFault, Bindings, FullName;
  }

  /** A second release input with other hashes is refused once binding is required. */
  lemma StaleBindingIsRefused(host: Host, bom: Bom, manifest: Manifest, lockfile: seq<bv8>, otherManifest: Manifest,
                              otherLockfile: seq<bv8>)
    requires host.digest(lockfile) != host.digest(otherLockfile)
             || host.manifestDigest(manifest) != host.manifestDigest(otherManifest)
    ensures Verdict(host, AsInput(Canonical(host, bom, manifest, lockfile)), otherManifest, otherLockfile, true).Some?
  {
    var once := Canonical(host, bom, manifest, lockfile);
    UnboundVerdict(host, AsInput(once), otherManifest, otherLockfile, true);
    hide Verdict, Sort, SortedRow;
    assert once.properties[0] != Bindings(host, otherManifest, otherLockfile)[0]
      || once.properties[1] != Bindings(host, otherManifest, otherLockfile)[1];
  }

  /** In an accepted bill the root has a row, and the names it links to are exactly the declared dependencies. */
  lemma RootLinksAreTheManifest(host: Host, bom: Bom, manifest: Manifest, lockfile: seq<bv8>, requireBinding: bool)
    returns (row: Row)
    requires Verdict(host, bom, manifest, lockfile, requireBinding).None?
    ensures row in bom.rows && row.ref == bom.root.ref
    ensures forall name :: name in Declared(manifest) <==>
              exists c :: c in Identities(bom) && c.ref in row.dependsOn && FullName(c) == name
  {
    hide FullName, IdentityOk, FirstFault, AllReached, AllKeyed, Bindings;
    var references := ReferenceSet(Identities(bom));
    row := RootHasRow(bom, references);
    RowIsOk(references, bom.rows, row);
    assert LinksMatch(host, Declared(manifest), Identities(bom), row.dependsOn);
    hide Verdict, RootLinksMatch, RowsOk;
    MatchedNamesAreDeclared(host, Identities(bom), Declared(manifest), row);
  }

  /**
   In an accepted bill every component the root links to is declared under its name, as a dependency or as an
   optional one, which comes first; and where that declaration is an exact version, it is the component's.
   */
  lemma LinkedVersionsAreDeclared(host: Host, bom: Bom, manifest: Manifest, lockfile: seq<bv8>, requireBinding: bool,
                                  row: Row, c: Component, full: string)
    requires Verdict(host, bom, manifest, lockfile, requireBinding).None? && Names(full, c)
    requires row in bom.rows && row.ref == bom.root.ref && c in Identities(bom) && c.ref in row.dependsOn
    ensures full in manifest.optional || full in manifest.dependencies
    ensures var text := if full in manifest.optional then manifest.optional[full] else manifest.dependencies[full];
            host.exactVersion(text) ==> text == c.version
  {
    hide IdentityOk, FirstFault, AllReached, AllKeyed, Bindings, RowsOk;
    assert FullName(c) == full;
    assert LinksMatch(host, Declared(manifest), Identities(bom), row.dependsOn);
    assert AsDeclared(host, Declared(manifest), c);
  }

  /** Links that each match, one for each declaration, are accepted. */
  lemma MatchingLinksAreAccepted(host: Host, identities: seq<Component>, manifest: Manifest, links: seq<string>)
    requires |links| == |manifest.dependencies.Keys + manifest.optional.Keys| && OneEach(identities, links)
    requires forall c :: c in identities && c.ref in links ==> DeclaredAs(host, manifest, c)
    ensures LinksMatch(host, Declared(manifest), identities, links)
  {
    assert Declared(manifest).Keys == manifest.dependencies.Keys + manifest.optional.Keys;
    KeysCount(Declared(manifest));
    forall c | c in identities && c.ref in links
      ensures AsDeclared(host, Declared(manifest), c)
    {
      assert DeclaredAs(host, manifest, c);
    }
  }

  lemma KeysCount(m: map<string, string>)
    ensures |m| == |m.Keys|
  {
  }

  ghost predicate DeclaredAs(host: Host, manifest: Manifest, c: Component) {
    var full := FullName(c);
    if full in manifest.optional
    then host.exactVersion(manifest.optional[full]) ==> manifest.optional[full] == c.version
    else full in manifest.dependencies
         && (host.exactVersion(manifest.dependencies[full]) ==> manifest.dependencies[full] == c.version)
  }

  lemma RowIsOk(references: set<string>, rows: seq<Row>, row: Row)
    requires RowsOk(references, rows) && row in rows
    ensures RowOk(references, row)
  {
  }

  lemma MatchedNamesAreDeclared(host: Host, identities: seq<Component>, declared: map<string, string>, row: Row)
    requires RowOk(ReferenceSet(identities), row) && LinksMatch(host, declared, identities, row.dependsOn)
    ensures forall name :: name in declared <==>
              exists c :: c in identities && c.ref in row.dependsOn && FullName(c) == name
  {
    hide FullName;
    SubsetSize(Named(identities, row.dependsOn), declared.Keys);
  }

  lemma RootHasRow(bom: Bom, references: set<string>) returns (row: Row)
    requires AllKeyed(RefOf, IdentityOk, Identities(bom)) && RowsOk(references, bom.rows)
    requires references == ReferenceSet(Identities(bom)) && |bom.rows| == |Identities(bom)|
    ensures row in bom.rows && row.ref == bom.root.ref
  {
    hide IdentityOk;
    var keyed := KeySet(RowRef, bom.rows);
    UniqueKeysByCount(RowRef, bom.rows);
    UniqueKeysByCount(RefOf, Identities(bom));
    assert KeySet(RefOf, Identities(bom)) == references;
    SubsetSize(keyed, references);
    assert bom.root in Identities(bom) && RefOf(bom.root) in references;
    row :| row in bom.rows && RowRef(row) == bom.root.ref;
  }

  lemma LastLink(links: seq<string>)
    requires links != [] && Distinct(links)
    ensures var rest, link := links[..|links| - 1], links[|links| - 1];
            Distinct(rest) && link !in rest && forall x :: x in links <==> x in rest || x == link
  {
    assert links == links[..|links| - 1] + [links[|links| - 1]];
  }

  ghost function Named(identities: seq<Component>, links: seq<string>): (names: set<string>)
    requires Distinct(links)
    requires forall link :: link in links ==> exists c :: c in identities && c.ref == link
    requires OneEach(identities, links)
    ensures |names| == |links|
    ensures forall name :: name in names ==> exists c :: c in identities && c.ref in links && FullName(c) == name
  {
    if links == [] then {}
    else
      var rest, link := links[..|links| - 1], links[|links| - 1];
      LastLink(links);
      assert link in links;
      var c :| c in identities && c.ref == link;
      var names := Named(identities, rest);
      assert FullName(c) !in names;
      names + {FullName(c)}
  }
}
