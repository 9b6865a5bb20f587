/**
 Extracting text blocks from a word-processing document (packages/candidate/src/extract.ts): the walk over
 a parsed part, its locators, and the collector's limits. Archive and XML parsing are parameters.
 */
module Docx {
  import opened Outcome
  import opened Collections

  /** `id` is the relationship an element names. */
  datatype Node = Element(tag: string, id: string, children: seq<Node>) | Text(value: string)

  /** The `index`-th child with this tag, counted from 1. */
  datatype Step = Step(tag: string, index: nat)

  datatype Locator = Locator(part: string, steps: seq<Step>)

  datatype Kind = Paragraph | TableCell | Link

  datatype Block = Block(locator: Locator, kind: Kind, text: string, url: Option<string>)

  const MAX_DEPTH: nat := 120
  const MAX_CHARACTERS: nat := 500000
  const MAX_BLOCKS: nat := 20000
  const MAX_TEXT: nat := 10000
  const MAX_LOCATOR: nat := 2000

  // ---- Text ----

  function PlainOf(n: Node): string {
    match n
    case Text(value) => value
    case Element(tag, _, children) =>
      if tag == "tab" then "\t" else if tag == "br" || tag == "cr" then "\n" else Plain(children)
  }

  /** The text of nodes, in order. */
  function Plain(nodes: seq<Node>): string {
    if nodes == [] then "" else Plain(nodes[..|nodes| - 1]) + PlainOf(nodes[|nodes| - 1])
  }

  /** The text as computed under the nesting limit; None when the limit is exceeded. */
  function TextOf(nodes: seq<Node>, depth: nat): (r: Option<string>)
    ensures r.Some? ==> r.value == Plain(nodes)
    decreases nodes, 0
  {
    if depth > MAX_DEPTH then Option.None
    else if nodes == [] then Option.Some("")
    else
      var before, last := TextOf(nodes[..|nodes| - 1], depth), TextOfNode(nodes[|nodes| - 1], depth);
      if before.None? || last.None? then Option.None else Option.Some(before.value + last.value)
  }

  function TextOfNode(n: Node, depth: nat): (r: Option<string>)
    ensures r.Some? ==> r.value == PlainOf(n)
    decreases n, 1
  {
    match n
    case Text(value) => Option.Some(value)
    case Element(tag, _, children) =>
      if tag == "tab" then Option.Some("\t") else if tag == "br" || tag == "cr" then Option.Some("\n")
      else TextOf(children, depth + 1)
  }

  /** No element lies below the nesting limit when `nodes` are at `depth`. */
  predicate Shallow(nodes: seq<Node>, depth: nat) {
    depth <= MAX_DEPTH && forall i :: 0 <= i < |nodes| && nodes[i].Element? ==> Shallow(nodes[i].children, depth + 1)
  }

  /** The text limit is never exceeded where the walk's is not. */
  lemma {:induction false} ShallowHasText(nodes: seq<Node>, depth: nat, below: nat)
    requires Shallow(nodes, below) && depth <= below
    ensures TextOf(nodes, depth).Some?
    decreases nodes
  {
    if nodes != [] {
      var rest, n := nodes[..|nodes| - 1], nodes[|nodes| - 1];
      ShallowHasText(rest, depth, below);
      if n.Element? {
        ShallowHasText(n.children, depth + 1, below + 1);
      }
    }
  }

  // ---- The collector ----

  function Characters(blocks: seq<Block>): nat {
    if blocks == [] then 0 else Characters(blocks[..|blocks| - 1]) + |blocks[|blocks| - 1].text|
  }

  predicate Says(blank: string -> bool, b: Block) {
    !blank(b.text) || (b.url.Some? && b.url.value != "")
  }

  /** The blocks that say something. */
  function Kept(blank: string -> bool, blocks: seq<Block>): seq<Block> {
    if blocks == [] then []
    else
      var last := blocks[|blocks| - 1];
      Kept(blank, blocks[..|blocks| - 1]) + (if Says(blank, last) then [last] else [])
  }

  /** Everything offered stays within the limits, at every moment. */
  ghost predicate Fits(blank: string -> bool, offered: seq<Block>) {
    && Characters(offered) <= MAX_CHARACTERS
    && forall k :: 0 <= k < |offered| ==> |offered[k].text| <= MAX_TEXT && |Kept(blank, offered[..k])| < MAX_BLOCKS
  }

  lemma FitsNext(blank: string -> bool, offered: seq<Block>, b: Block)
    ensures Fits(blank, offered + [b]) <==>
              Fits(blank, offered) && Characters(offered) + |b.text| <= MAX_CHARACTERS
              && |Kept(blank, offered)| < MAX_BLOCKS && |b.text| <= MAX_TEXT
  {
    var all := offered + [b];
    assert all[..|offered|] == offered && all[|offered|] == b;
    assert forall k :: 0 <= k < |offered| ==> all[..k] == offered[..k] && all[k] == offered[k];
  }

  lemma {:induction false} FitsPrefix(blank: string -> bool, offered: seq<Block>, n: nat)
    requires n <= |offered| && Fits(blank, offered)
    ensures Fits(blank, offered[..n])
    decreases |offered|
  {
    hide Fits;
    if n == |offered| {
      assert offered[..n] == offered;
    } else {
      var rest := offered[..|offered| - 1];
      assert offered == rest + [offered[|offered| - 1]];
      FitsNext(blank, rest, offered[|offered| - 1]);
      FitsPrefix(blank, rest, n);
      assert rest[..n] == offered[..n];
    }
  }

  class Collector {
    const blank: string -> bool
    var blocks: seq<Block>
    var warnings: set<string>
    var characters: nat
    ghost var offered: seq<Block>

    ghost predicate Valid()
      reads this
    {
      blocks == Kept(blank, offered) && characters == Characters(offered) && Fits(blank, offered)
    }

    constructor (blank: string -> bool)
      ensures Valid() && offered == [] && warnings == {} && this.blank == blank
    {
      this.blank := blank;
      blocks, warnings, characters, offered := [], {}, 0, [];
    }

    /** Takes a block, dropping one that says nothing; fails when a limit is exceeded. */
    method Add(b: Block) returns (ok: bool)
      requires Valid()
      modifies this
      ensures ok <==> Fits(blank, old(offered) + [b])
      ensures ok ==> Valid() && offered == old(offered) + [b] && warnings == old(warnings)
    {
      FitsNext(blank, offered, b);
      characters := characters + |b.text|;
      if characters > MAX_CHARACTERS || |blocks| >= MAX_BLOCKS || |b.text| > MAX_TEXT {
        return false;
      }
      assert (offered + [b])[..|offered|] == offered;
      if Says(blank, b) {
        blocks := blocks + [b];
      }
      offered := offered + [b];
      ok := true;
    }
  }

  // ---- The walk ----

  function CountTag(nodes: seq<Node>, tag: string): nat {
    if nodes == [] then 0
    else
      var last := nodes[|nodes| - 1];
      CountTag(nodes[..|nodes| - 1], tag) + (if last.Element? && last.tag == tag then 1 else 0)
  }

  function Flagged(tag: string): bool {
    tag in {"drawing", "pict", "altChunk", "object", "del", "ins"}
  }

  predicate InCell(steps: seq<Step>) {
    exists i :: 0 <= i < |steps| && steps[i].tag == "tc"
  }

  /** The block an element itself gives, at locator `at` below `path`. */
  function Own(links: map<string, string>, n: Node, part: string, path: seq<Step>, step: Step): seq<Block> {
    if n.Text? then []
    else if n.tag == "p" then
      [Block(Locator(part, path + [step]), if InCell(path) then TableCell else Paragraph, Plain(n.children),
             Option.None)]
    else if n.tag == "hyperlink" && n.id in links && links[n.id] != "" then
      [Block(Locator(part, path + [step]), Link, Plain(n.children), Option.Some(links[n.id]))]
    else []
  }

  function StepOf(nodes: seq<Node>, i: nat): Step
    requires i < |nodes| && nodes[i].Element?
  {
    Step(nodes[i].tag, CountTag(nodes[..i], nodes[i].tag) + 1)
  }

  /** All blocks of `nodes` found below `path`: an element before its children, siblings in order. */
  function Blocks(links: map<string, string>, nodes: seq<Node>, part: string, path: seq<Step>): seq<Block> {
    if nodes == [] then []
    else
      var n := |nodes| - 1;
      Blocks(links, nodes[..n], part, path) +
      (match nodes[n]
       case Text(_) => []
       case Element(_, _, children) =>
         Own(links, nodes[n], part, path, StepOf(nodes, n)) + Blocks(links, children, part, path + [StepOf(nodes, n)]))
  }

  /** The tags of flagged elements anywhere in `nodes`. */
  function Flags(nodes: seq<Node>): set<string> {
    if nodes == [] then {} else Flags(nodes[..|nodes| - 1]) + FlagsAt(nodes[|nodes| - 1])
  }

  function FlagsAt(n: Node): set<string> {
    match n
    case Text(_) => {}
    case Element(tag, _, children) => (if Flagged(tag) then {tag} else {}) + Flags(children)
  }

  /** What element `i` gives together with everything below it. */
  function BlocksAt(links: map<string, string>, nodes: seq<Node>, i: nat, part: string, path: seq<Step>): seq<Block>
    requires i < |nodes|
  {
    match nodes[i]
    case Text(_) => []
    case Element(_, _, children) =>
      Own(links, nodes[i], part, path, StepOf(nodes, i)) + Blocks(links, children, part, path + [StepOf(nodes, i)])
  }

  lemma StepInPrefix(nodes: seq<Node>, i: nat, n: nat)
    requires i < n <= |nodes| && nodes[i].Element?
    ensures StepOf(nodes[..n], i) == StepOf(nodes, i)
  {
    assert nodes[..n][..i] == nodes[..i];
  }

  lemma BlocksNext(links: map<string, string>, nodes: seq<Node>, i: nat, part: string, path: seq<Step>)
    requires i < |nodes|
    ensures Blocks(links, nodes[..i + 1], part, path) == Blocks(links, nodes[..i], part, path)
            + BlocksAt(links, nodes, i, part, path)
    ensures Flags(nodes[..i + 1]) == Flags(nodes[..i]) + FlagsAt(nodes[i])
  {
    var first := nodes[..i + 1];
    assert first[..i] == nodes[..i] && first[i] == nodes[i];
    if nodes[i].Element? {
      StepInPrefix(nodes, i, i + 1);
    }
  }

  lemma {:induction false} BlocksPrefix(links: map<string, string>, nodes: seq<Node>, i: nat, part: string,
                                        path: seq<Step>)
    requires i <= |nodes|
    ensures Blocks(links, nodes[..i], part, path) <= Blocks(links, nodes, part, path)
    decreases |nodes| - i
  {
    if i == |nodes| {
      assert nodes[..i] == nodes;
    } else {
      BlocksNext(links, nodes, i, part, path);
      BlocksPrefix(links, nodes, i + 1, part, path);
    }
  }

  /** If everything fits, so does what was offered up to any moment. */
  lemma FitsSoFar(blank: string -> bool, start: seq<Block>, some: seq<Block>, all: seq<Block>)
    requires some <= all && Fits(blank, start + all)
    ensures Fits(blank, start + some)
  {
    FitsPrefix(blank, start + all, |start + some|);
    assert (start + all)[..|start + some|] == start + some;
  }

  lemma ShallowNext(nodes: seq<Node>, i: nat, depth: nat)
    requires i < |nodes|
    ensures Shallow(nodes[..i + 1], depth) <==>
              Shallow(nodes[..i], depth) && (nodes[i].Element? ==> Shallow(nodes[i].children, depth + 1))
    ensures Shallow(nodes, depth) ==> Shallow(nodes[..i + 1], depth)
  {
    assert nodes[..i + 1] == nodes[..i] + [nodes[i]];
    if Shallow(nodes[..i + 1], depth) {
      assert nodes[..i + 1][i] == nodes[i];
      forall k | 0 <= k < i && nodes[..i][k].Element?
        ensures Shallow(nodes[..i][k].children, depth + 1)
      {
        assert nodes[..i + 1][k] == nodes[k];
      }
    }
  }

  /** How often each tag was seen so far. */
  ghost predicate Counted(counts: map<string, nat>, nodes: seq<Node>) {
    forall tag :: (if tag in counts then counts[tag] else 0) == CountTag(nodes, tag)
  }

  lemma CountedNext(counts: map<string, nat>, nodes: seq<Node>, i: nat)
    requires i < |nodes| && Counted(counts, nodes[..i])
    ensures nodes[i].Text? ==> Counted(counts, nodes[..i + 1])
    ensures nodes[i].Element? ==>
              var tag := nodes[i].tag; var index := (if tag in counts then counts[tag] else 0) + 1;
              Counted(counts[tag := index], nodes[..i + 1]) && Step(tag, index) == StepOf(nodes, i)
  {
    assert nodes[..i + 1][..i] == nodes[..i] && nodes[..i + 1][i] == nodes[i];
  }

  /** What one more element changes, and what its failure means for the whole. */
  lemma Advance(links: map<string, string>, nodes: seq<Node>, i: nat, part: string, path: seq<Step>, depth: nat,
                blank: string -> bool, start: seq<Block>, said: set<string>)
    requires i < |nodes| && nodes[i].Element? && Shallow(nodes[..i], depth)
    ensures var n, step := nodes[i], StepOf(nodes, i);
            var so, all := start + Blocks(links, nodes[..i], part, path), start + Blocks(links, nodes, part, path);
            var at := Own(links, n, part, path, step) + Blocks(links, n.children, part, path + [step]);
            && so + at == start + Blocks(links, nodes[..i + 1], part, path)
            && (said + Flags(nodes[..i])) + FlagsAt(n) == said + Flags(nodes[..i + 1])
            && (Shallow(n.children, depth + 1) ==> Shallow(nodes[..i + 1], depth))
            && (Shallow(nodes, depth) && Fits(blank, all) ==> Shallow(n.children, depth + 1) && Fits(blank, so + at))
  {
    hide Fits, Own, Flagged, Shallow, StepOf;
    BlocksNext(links, nodes, i, part, path);
    BlocksPrefix(links, nodes, i + 1, part, path);
    ShallowNext(nodes, i, depth);
    hide Blocks, Flags, FlagsAt;
    assert (said + Flags(nodes[..i])) + FlagsAt(nodes[i]) == said + (Flags(nodes[..i]) + FlagsAt(nodes[i]));
    Associate(start, Blocks(links, nodes[..i], part, path), BlocksAt(links, nodes, i, part, path));
    if Fits(blank, start + Blocks(links, nodes, part, path)) {
      FitsSoFar(blank, start, Blocks(links, nodes[..i + 1], part, path), Blocks(links, nodes, part, path));
    }
  }

  lemma AdvanceText(links: map<string, string>, nodes: seq<Node>, i: nat, part: string, path: seq<Step>, depth: nat)
    requires i < |nodes| && nodes[i].Text? && Shallow(nodes[..i], depth)
    ensures Blocks(links, nodes[..i + 1], part, path) == Blocks(links, nodes[..i], part, path)
    ensures Flags(nodes[..i + 1]) == Flags(nodes[..i]) && Shallow(nodes[..i + 1], depth)
  {
    BlocksNext(links, nodes, i, part, path);
    ShallowNext(nodes, i, depth);
  }

  /** Walks nodes below `path`, offering every block; fails on a limit of the collector or of nesting. */
  method Walk(c: Collector, links: map<string, string>, nodes: seq<Node>, part: string, path: seq<Step>, depth: nat)
    returns (ok: bool)
    requires c.Valid()
    modifies c
    ensures ok <==> Shallow(nodes, depth) && Fits(c.blank, old(c.offered) + Blocks(links, nodes, part, path))
    ensures ok ==> c.Valid() && c.offered == old(c.offered) + Blocks(links, nodes, part, path)
                   && c.warnings == old(c.warnings) + Flags(nodes)
    decreases nodes
  {
    if depth > MAX_DEPTH {
      return false;
    }
    assert Walked(c, links, nodes, 0, part, path, depth, c.offered, c.warnings);
    hide *;
    var counts: map<string, nat> := map[];
    ghost var start, said := c.offered, c.warnings;
    ValidFits(c);
    NothingCounted(nodes);
    for i := 0 to |nodes|
      invariant Walked(c, links, nodes, i, part, path, depth, start, said)
      invariant Counted(counts, nodes[..i])
    {
      CountedNext(counts, nodes, i);
      if nodes[i].Element? {
        var tag := nodes[i].tag;
        var index := (if tag in counts then counts[tag] else 0) + 1;
        counts := counts[tag := index];
        ok := WalkSibling(c, links, nodes, i, part, path, Step(tag, index), depth, start, said);
        if !ok {
          return;
        }
      } else {
        WalkedText(c, links, nodes, i, part, path, depth, start, said);
      }
    }
    WalkedAll(c, links, nodes, part, path, depth, start, said);
    ok := true;
  }

  /** The first `i` siblings have been walked, from a collector that had `start` and `said`. */
  ghost predicate Walked(c: Collector, links: map<string, string>, nodes: seq<Node>, i: nat, part: string,
                         path: seq<Step>, depth: nat,
                         start: seq<Block>, said: set<string>)
    requires i <= |nodes|
    reads c
  {
    && c.Valid() && c.offered == start + Blocks(links, nodes[..i], part, path)
    && c.warnings == said + Flags(nodes[..i]) && Shallow(nodes[..i], depth)
  }

  lemma WalkedText(c: Collector, links: map<string, string>, nodes: seq<Node>, i: nat, part: string, path: seq<Step>,
                   depth: nat,
                   start: seq<Block>, said: set<string>)
    requires i < |nodes| && nodes[i].Text? && Walked(c, links, nodes, i, part, path, depth, start, said)
    ensures Walked(c, links, nodes, i + 1, part, path, depth, start, said)
  {
    hide Collector.Valid, Blocks, Flags, Shallow;
    AdvanceText(links, nodes, i, part, path, depth);
  }

  method WalkSibling(c: Collector, links: map<string, string>, nodes: seq<Node>, i: nat, part: string, path: seq<Step>,
                     step: Step, depth: nat,
                     ghost start: seq<Block>, ghost said: set<string>) returns (ok: bool)
    requires i < |nodes| && nodes[i].Element? && step == StepOf(nodes, i)
    requires Walked(c, links, nodes, i, part, path, depth, start, said)
    modifies c
    ensures ok ==> Walked(c, links, nodes, i + 1, part, path, depth, start, said)
    ensures !ok ==> !(Shallow(nodes, depth) && Fits(c.blank, start + Blocks(links, nodes, part, path)))
    decreases nodes[i], 1
  {
    hide Fits, Own, Flagged, Blocks, Flags, Shallow, StepOf, FlagsAt;
    Advance(links, nodes, i, part, path, depth, c.blank, start, said);
    ok := WalkElement(c, links, nodes[i], part, path, step, depth);
  }

  lemma WalkedAll(c: Collector, links: map<string, string>, nodes: seq<Node>, part: string, path: seq<Step>, depth: nat,
                  start: seq<Block>, said: set<string>)
    requires Walked(c, links, nodes, |nodes|, part, path, depth, start, said)
    ensures c.Valid() && c.offered == start + Blocks(links, nodes, part, path) && Fits(c.blank, c.offered)
    ensures c.warnings == said + Flags(nodes) && Shallow(nodes, depth)
  {
    assert nodes[..|nodes|] == nodes;
    ValidFits(c);
  }

  lemma NothingCounted(nodes: seq<Node>)
    ensures Counted(map[], nodes[..0])
  {
  }

  lemma ValidFits(c: Collector)
    requires c.Valid()
    ensures Fits(c.blank, c.offered)
  {
  }

  method WalkElement(c: Collector, links: map<string, string>, n: Node, part: string, path: seq<Step>, step: Step,
                     depth: nat) returns (ok: bool)
    requires c.Valid() && n.Element?
    modifies c
    ensures ok <==> Shallow(n.children, depth + 1)
                    && Fits(c.blank, old(c.offered)
                            + (Own(links, n, part, path, step) + Blocks(links, n.children, part, path + [step])))
    ensures ok ==> c.Valid()
    ensures ok ==>
              c.offered == old(c.offered)
                           + (Own(links, n, part, path, step) + Blocks(links, n.children, part, path + [step]))
    ensures ok ==> c.warnings == old(c.warnings) + FlagsAt(n)
    decreases n, 0
  {
    hide Fits, InCell, Flags, Blocks, Shallow, Flagged;
    ghost var start, own, below := c.offered, Own(links, n, part, path, step),
      Blocks(links, n.children, part, path + [step]);
    Associate(start, own, below);
    var text := TextOf(n.children, 0);
    if Shallow(n.children, depth + 1) {
      ShallowHasText(n.children, 0, depth + 1);
    }
    if n.tag == "p" {
      if text.None? {
        return false;
      }
      ok := c.Add(Block(Locator(part, path + [step]), if InCell(path) then TableCell else Paragraph, text.value,
                        Option.None));
    } else if n.tag == "hyperlink" && n.id in links && links[n.id] != "" {
      if text.None? {
        return false;
      }
      ok := c.Add(Block(Locator(part, path + [step]), Link, text.value, Option.Some(links[n.id])));
    } else {
      ok := true;
    }
    if !ok {
      if Fits(c.blank, start + (own + below)) {
        FitsSoFar(c.blank, start, own, own + below);
      }
      return false;
    }
    assert c.offered == start + own;
    if Flagged(n.tag) {
      c.warnings := c.warnings + {n.tag};
    }
    ok := Walk(c, links, n.children, part, path + [step], depth + 1);
  }

  // ---- Locators ----

  /** The position of the `k`-th child with a tag. */
  function Find(nodes: seq<Node>, step: Step): (r: Option<nat>)
    ensures r.Some? ==> r.value < |nodes| && nodes[r.value].Element? && StepOf(nodes, r.value) == step
  {
    if nodes == [] then Option.None
    else
      var n := |nodes| - 1;
      var before := Find(nodes[..n], step);
      if before.Some? then
        StepInPrefix(nodes, before.value, n);
        before
      else if nodes[n].Element? && StepOf(nodes, n) == step then Option.Some(n)
      else Option.None
  }

  /** Follows a locator from a part's root to child positions. */
  function Address(nodes: seq<Node>, steps: seq<Step>): (r: Option<seq<nat>>)
    ensures r.Some? ==> |r.value| == |steps|
    ensures r.Some? && steps != [] ==> r.value[0] < |nodes|
    decreases |steps|
  {
    if steps == [] then Option.Some([])
    else
      match Find(nodes, steps[0])
      case None => Option.None
      case Some(i) =>
        match Address(nodes[i].children, steps[1..])
        case None => Option.None
        case Some(rest) => Option.Some([i] + rest)
  }

  /** The element at the end of a locator. */
  function Target(nodes: seq<Node>, steps: seq<Step>): Option<Node>
    requires steps != []
    decreases |steps|
  {
    match Find(nodes, steps[0])
    case None => Option.None
    case Some(i) => if |steps| == 1 then Option.Some(nodes[i]) else Target(nodes[i].children, steps[1..])
  }

  /** Document order of addresses: an element before its descendants, siblings by position. */
  predicate Precedes(a: seq<nat>, b: seq<nat>) {
    if b == [] then false
    else if a == [] then true
    else a[0] < b[0] || (a[0] == b[0] && Precedes(a[1..], b[1..]))
  }

  lemma {:induction false} CountGrows(nodes: seq<Node>, i: nat, j: nat, tag: string)
    requires i <= j <= |nodes|
    ensures CountTag(nodes[..i], tag) <= CountTag(nodes[..j], tag)
    ensures i < j && nodes[i].Element? && nodes[i].tag == tag ==> CountTag(nodes[..i], tag) < CountTag(nodes[..j], tag)
  {
    if i < j {
      CountGrows(nodes, i, j - 1, tag);
      assert nodes[..j][..j - 1] == nodes[..j - 1];
    }
  }

  /** An element is the one its own step finds. */
  lemma FindsOwn(nodes: seq<Node>, i: nat)
    requires i < |nodes| && nodes[i].Element?
    ensures Find(nodes, StepOf(nodes, i)) == Option.Some(i)
  {
    FoundSomewhere(nodes, i, |nodes|);
    assert nodes[..|nodes|] == nodes;
    var j := Find(nodes, StepOf(nodes, i)).value;
    if i < j {
      CountGrows(nodes, i, j, nodes[i].tag);
    } else {
      CountGrows(nodes, j, i, nodes[i].tag);
    }
  }

  lemma {:induction false} FoundSomewhere(nodes: seq<Node>, i: nat, n: nat)
    requires i < n <= |nodes| && nodes[i].Element?
    ensures Find(nodes[..n], StepOf(nodes, i)).Some?
  {
    var first := nodes[..n];
    assert first[..n - 1] == nodes[..n - 1] && first[n - 1] == nodes[n - 1];
    if i < n - 1 {
      FoundSomewhere(nodes, i, n - 1);
    } else {
      StepInPrefix(nodes, i, n);
    }
  }

  /** A block below `path` that leads back from `nodes` to its element, whose position starts before `n`. */
  ghost predicate LeadsBack(links: map<string, string>, nodes: seq<Node>, n: nat, part: string, path: seq<Step>,
                            b: Block) {
    && b.locator.part == part && path < b.locator.steps
    && var rel := b.locator.steps[|path|..];
       && Address(nodes, rel).Some? && Address(nodes, rel).value[0] < n
       && Target(nodes, rel).Some? && Target(nodes, rel).value.Element?
       && Own(links, Target(nodes, rel).value, part, b.locator.steps[..|b.locator.steps| - 1],
              b.locator.steps[|b.locator.steps| - 1]) == [b]
  }

  lemma OneStep(nodes: seq<Node>, i: nat)
    requires i < |nodes| && nodes[i].Element?
    ensures var steps := [StepOf(nodes, i)];
            Address(nodes, steps) == Option.Some([i]) && Target(nodes, steps) == Option.Some(nodes[i])
  {
    hide StepOf, Find;
    FindsOwn(nodes, i);
    var steps := [StepOf(nodes, i)];
    assert steps[1..] == [] && [i] + [] == [i];
    assert Address(nodes[i].children, []) == Option.Some([]);
  }

  lemma OwnLocator(links: map<string, string>, n: Node, part: string, path: seq<Step>, step: Step, b: Block)
    requires Own(links, n, part, path, step) == [b]
    ensures b.locator == Locator(part, path + [step])
  {
  }

  lemma OwnLeadsBack(links: map<string, string>, nodes: seq<Node>, i: nat, part: string, path: seq<Step>, b: Block)
    requires i < |nodes| && nodes[i].Element? && Own(links, nodes[i], part, path, StepOf(nodes, i)) == [b]
    ensures LeadsBack(links, nodes, i + 1, part, path, b)
    ensures b.locator.steps == path + [StepOf(nodes, i)]
    ensures Address(nodes, b.locator.steps[|path|..]) == Option.Some([i])
  {
    hide Own, StepOf, Address, Target;
    var step := StepOf(nodes, i);
    OneStep(nodes, i);
    OwnLocator(links, nodes[i], part, path, step, b);
    assert (path + [step])[|path|..] == [step];
    assert (path + [step])[..|path|] == path;
  }

  lemma ChildLeadsBack(links: map<string, string>, nodes: seq<Node>, i: nat, n: nat, part: string, path: seq<Step>,
                       b: Block)
    requires i < |nodes| && nodes[i].Element?
    requires LeadsBack(links, nodes[i].children, n, part, path + [StepOf(nodes, i)], b)
    ensures LeadsBack(links, nodes, i + 1, part, path, b)
    ensures var inner := Address(nodes[i].children, b.locator.steps[|path| + 1..]);
            inner.Some? && Address(nodes, b.locator.steps[|path|..]) == Option.Some([i] + inner.value)
  {
    hide Own;
    var step := StepOf(nodes, i);
    FindsOwn(nodes, i);
    var rel := b.locator.steps[|path|..];
    assert b.locator.steps[|path + [step]|..] == rel[1..] == b.locator.steps[|path| + 1..];
    assert rel[0] == (path + [step])[|path|];
    assert path < b.locator.steps;
  }

  lemma MoreRoom(links: map<string, string>, nodes: seq<Node>, n: nat, m: nat, part: string, path: seq<Step>, b: Block)
    requires LeadsBack(links, nodes, n, part, path, b) && n <= m
    ensures LeadsBack(links, nodes, m, part, path, b)
  {
    hide Own, Target, Address;
  }

  lemma OwnIsOne(links: map<string, string>, n: Node, part: string, path: seq<Step>, step: Step)
    ensures |Own(links, n, part, path, step)| <= 1
  {
  }

  /** Every block leads back to its element. */
  lemma {:induction false} BlocksLeadBack(links: map<string, string>, nodes: seq<Node>, n: nat, part: string,
                                          path: seq<Step>, k: nat)
    requires n <= |nodes| && k < |Blocks(links, nodes[..n], part, path)|
    ensures LeadsBack(links, nodes, n, part, path, Blocks(links, nodes[..n], part, path)[k])
    decreases nodes, n
  {
    hide LeadsBack, Blocks, Own, StepOf;
    SomeBlocks(links, nodes, n, part, path);
    var i := n - 1;
    BlocksNext(links, nodes, i, part, path);
    var before := Blocks(links, nodes[..i], part, path);
    if k < |before| {
      BlocksLeadBack(links, nodes, i, part, path, k);
      MoreRoom(links, nodes, i, n, part, path, before[k]);
    } else {
      BelowLeadBack(links, nodes, i, part, path, k - |before|);
    }
  }

  lemma {:induction false} BelowLeadBack(links: map<string, string>, nodes: seq<Node>, i: nat, part: string,
                                         path: seq<Step>, k: nat)
    requires i < |nodes| && k < |BlocksAt(links, nodes, i, part, path)|
    ensures LeadsBack(links, nodes, i + 1, part, path, BlocksAt(links, nodes, i, part, path)[k])
    decreases nodes, i
  {
    hide LeadsBack, Blocks, Own, StepOf;
    var step := StepOf(nodes, i);
    var own := Own(links, nodes[i], part, path, step);
    OwnIsOne(links, nodes[i], part, path, step);
    if k < |own| {
      assert own == [own[0]];
      OwnLeadsBack(links, nodes, i, part, path, own[0]);
    } else {
      var children := nodes[i].children;
      assert children[..|children|] == children;
      BlocksLeadBack(links, children, |children|, part, path + [step], k - |own|);
      ChildLeadsBack(links, nodes, i, |children|, part, path, Blocks(links, children, part, path + [step])[k - |own|]);
    }
  }

  /** The position of a block's element. */
  ghost function Place(nodes: seq<Node>, path: seq<Step>, b: Block): seq<nat> {
    if |path| <= |b.locator.steps| && Address(nodes, b.locator.steps[|path|..]).Some?
    then Address(nodes, b.locator.steps[|path|..]).value else []
  }

  lemma BelowPlace(links: map<string, string>, nodes: seq<Node>, i: nat, part: string, path: seq<Step>, k: nat)
    requires i < |nodes| && k < |BlocksAt(links, nodes, i, part, path)|
    ensures var b := BlocksAt(links, nodes, i, part, path)[k];
            var own := |Own(links, nodes[i], part, path, StepOf(nodes, i))|;
            && nodes[i].Element?
            && Place(nodes, path, b) == [i]
               + (if k < own then [] else Place(nodes[i].children, path + [StepOf(nodes, i)], b))
            && (k >= own ==> Place(nodes[i].children, path + [StepOf(nodes, i)], b) != [])
  {
    hide Blocks, Own, StepOf, Target;
    var step := StepOf(nodes, i);
    var own := Own(links, nodes[i], part, path, step);
    OwnIsOne(links, nodes[i], part, path, step);
    if k < |own| {
      assert own == [own[0]];
      OwnLeadsBack(links, nodes, i, part, path, own[0]);
    } else {
      var children := nodes[i].children;
      var b := Blocks(links, children, part, path + [step])[k - |own|];
      assert children[..|children|] == children;
      BlocksLeadBack(links, children, |children|, part, path + [step], k - |own|);
      ChildLeadsBack(links, nodes, i, |children|, part, path, b);
    }
  }

  lemma BlockPlace(links: map<string, string>, nodes: seq<Node>, n: nat, part: string, path: seq<Step>, k: nat)
    requires n <= |nodes| && k < |Blocks(links, nodes[..n], part, path)|
    ensures var place := Place(nodes, path, Blocks(links, nodes[..n], part, path)[k]);
            place != [] && place[0] < n
  {
    hide Blocks, Own, Target, Address;
    BlocksLeadBack(links, nodes, n, part, path, k);
  }

  /** Blocks come out in document order. */
  lemma {:induction false} BlocksInOrder(links: map<string, string>, nodes: seq<Node>, n: nat, part: string,
                                         path: seq<Step>, j: nat, k: nat)
    requires n <= |nodes| && j < k < |Blocks(links, nodes[..n], part, path)|
    ensures Precedes(Place(nodes, path, Blocks(links, nodes[..n], part, path)[j]),
                     Place(nodes, path, Blocks(links, nodes[..n], part, path)[k]))
    decreases nodes, n
  {
    hide *;
    SomeBlocks(links, nodes, n, part, path);
    var i := n - 1;
    BlocksNext(links, nodes, i, part, path);
    var before := |Blocks(links, nodes[..i], part, path)|;
    if k < before {
      BlocksInOrder(links, nodes, i, part, path, j, k);
    } else if j < before {
      BlockPlace(links, nodes, i, part, path, j);
      BelowPlace(links, nodes, i, part, path, k - before);
      FirstDecides(Place(nodes, path, Blocks(links, nodes[..n], part, path)[j]),
                   Place(nodes, path, Blocks(links, nodes[..n], part, path)[k]));
    } else {
      BelowInOrder(links, nodes, i, part, path, j - before, k - before);
    }
  }

  lemma SomeBlocks(links: map<string, string>, nodes: seq<Node>, n: nat, part: string, path: seq<Step>)
    requires n <= |nodes| && Blocks(links, nodes[..n], part, path) != []
    ensures n > 0
  {
  }

  lemma FirstDecides(a: seq<nat>, b: seq<nat>)
    requires a != [] && b != [] && a[0] < b[0]
    ensures Precedes(a, b)
  {
  }

  lemma PrecedesBelow(i: nat, a: seq<nat>, b: seq<nat>)
    requires Precedes(a, b)
    ensures Precedes([i] + a, [i] + b)
  {
    assert ([i] + a)[1..] == a && ([i] + b)[1..] == b;
  }

  lemma {:induction false} BelowInOrder(links: map<string, string>, nodes: seq<Node>, i: nat, part: string,
                                        path: seq<Step>, j: nat, k: nat)
    requires i < |nodes| && j < k < |BlocksAt(links, nodes, i, part, path)|
    ensures Precedes(Place(nodes, path, BlocksAt(links, nodes, i, part, path)[j]),
                     Place(nodes, path, BlocksAt(links, nodes, i, part, path)[k]))
    decreases nodes, i
  {
    hide Blocks, Own, StepOf, Place, Precedes;
    var step, children := StepOf(nodes, i), nodes[i].children;
    var own := Own(links, nodes[i], part, path, step);
    OwnIsOne(links, nodes[i], part, path, step);
    BelowPlace(links, nodes, i, part, path, j);
    BelowPlace(links, nodes, i, part, path, k);
    var second := Place(children, path + [step], BlocksAt(links, nodes, i, part, path)[k]);
    if j < |own| {
      BeforeAll(second);
      PrecedesBelow(i, [], second);
    } else {
      assert children[..|children|] == children;
      BlocksInOrder(links, children, |children|, part, path + [step], j - |own|, k - |own|);
      PrecedesBelow(i, Place(children, path + [step], BlocksAt(links, nodes, i, part, path)[j]), second);
    }
  }

  lemma BeforeAll(a: seq<nat>)
    requires a != []
    ensures Precedes([], a)
  {
  }

  lemma {:induction false} PrecedesIsStrict(a: seq<nat>)
    ensures !Precedes(a, a)
  {
    if a != [] {
      PrecedesIsStrict(a[1..]);
    }
  }

  /** No two blocks of a part have the same locator. */
  lemma LocatorsDistinct(links: map<string, string>, nodes: seq<Node>, part: string, j: nat, k: nat)
    requires j < k < |Blocks(links, nodes, part, [])|
    ensures Blocks(links, nodes, part, [])[j].locator != Blocks(links, nodes, part, [])[k].locator
  {
    hide Blocks, Address;
    assert nodes[..|nodes|] == nodes;
    BlocksInOrder(links, nodes, |nodes|, part, [], j, k);
    PrecedesIsStrict(Place(nodes, [], Blocks(links, nodes, part, [])[j]));
  }

  // ---- Locators as text ----

  function Digits(n: nat): string {
    if n < 10 then [n as char + '0'] else Digits(n / 10) + [(n % 10) as char + '0']
  }

  function Written(steps: seq<Step>): string {
    if steps == [] then ""
    else "/" + (steps[0].tag + ("[" + (Digits(steps[0].index) + ("]" + Written(steps[1..])))))
  }

  /** The locator text of a block. */
  function Rendered(l: Locator): string {
    l.part + Written(l.steps)
  }

  /** An element name. */
  predicate IsName(tag: string) {
    '/' !in tag && '[' !in tag
  }

  predicate Named(steps: seq<Step>) {
    forall i :: 0 <= i < |steps| ==> IsName(steps[i].tag)
  }

  lemma {:induction false} DigitsAreDigits(n: nat)
    ensures Digits(n) != [] && forall c :: c in Digits(n) ==> '0' <= c <= '9'
  {
    if n >= 10 {
      DigitsAreDigits(n / 10);
    }
  }

  lemma {:induction false} DigitsInjective(m: nat, n: nat)
    requires Digits(m) == Digits(n)
    ensures m == n
  {
    DigitsAreDigits(m / 10);
    DigitsAreDigits(n / 10);
    var d, e := Digits(m), Digits(n);
    assert d[|d| - 1] == e[|e| - 1];
    if m >= 10 && n >= 10 {
      assert d[..|d| - 1] == Digits(m / 10) && e[..|e| - 1] == Digits(n / 10);
      DigitsInjective(m / 10, n / 10);
    }
  }

  /** Text splits in only one way at the first occurrence of a separator. */
  lemma SplitsOnce(c: char, a: string, u: string, b: string, v: string)
    requires c !in a && c !in b && a + ([c] + u) == b + ([c] + v)
    ensures a == b && u == v
  {
    var s, t := a + ([c] + u), b + ([c] + v);
    assert s[|a|] == c && t[|b|] == c;
    assert forall i :: 0 <= i < |a| ==> s[i] == a[i] && a[i] in a;
    assert forall i :: 0 <= i < |b| ==> t[i] == b[i] && b[i] in b;
    assert a == s[..|a|] == t[..|b|] == b;
    assert u == s[|a| + 1..] == t[|b| + 1..] == v;
  }

  lemma {:induction false} WrittenInjective(a: seq<Step>, b: seq<Step>)
    requires Named(a) && Named(b) && Written(a) == Written(b)
    ensures a == b
  {
    if a != [] && b != [] {
      var s, t := a[0], b[0];
      DigitsAreDigits(s.index);
      DigitsAreDigits(t.index);
      var afterTagA, afterTagB := Digits(s.index) + ("]" + Written(a[1..])), Digits(t.index) + ("]" + Written(b[1..]));
      assert Written(a)[1..] == s.tag + ("[" + afterTagA) && Written(b)[1..] == t.tag + ("[" + afterTagB);
      assert IsName(s.tag) && IsName(t.tag);
      SplitsOnce('[', s.tag, afterTagA, t.tag, afterTagB);
      SplitsOnce(']', Digits(s.index), Written(a[1..]), Digits(t.index), Written(b[1..]));
      DigitsInjective(s.index, t.index);
      WrittenInjective(a[1..], b[1..]);
      assert a == [a[0]] + a[1..] && b == [b[0]] + b[1..];
    }
  }

  predicate AllDigits(s: string) {
    forall c :: c in s ==> '0' <= c <= '9'
  }

  /** The middle of the name of a part that is read. */
  predicate IsStem(s: string) {
    s in {"document", "footnotes", "endnotes"} || ("header" <= s && AllDigits(s[6..]))
      || ("footer" <= s && AllDigits(s[6..]))
  }

  /** A part that is read: the document, its headers, footers and notes. */
  predicate IsBody(name: string) {
    |name| >= 9 && "word/" <= name && name[|name| - 4..] == ".xml" && IsStem(name[5..|name| - 4])
  }

  lemma StemHasNoSlash(s: string)
    requires IsStem(s)
    ensures '/' !in s
  {
    if "header" <= s || "footer" <= s {
      assert s == s[..6] + s[6..];
      assert s[..6] == "header" || s[..6] == "footer";
    }
  }

  lemma BodyName(name: string)
    requires IsBody(name)
    ensures |name| >= 5 && name[..5] == "word/" && '/' !in name[5..]
  {
    StemHasNoSlash(name[5..|name| - 4]);
    assert name[5..] == name[5..|name| - 4] + ".xml";
  }

  /** Locators of parts that are read are distinct as text when they are distinct. */
  lemma RenderedInjective(a: Locator, b: Locator)
    requires IsBody(a.part) && IsBody(b.part) && a.steps != [] && b.steps != [] && Named(a.steps) && Named(b.steps)
    requires Rendered(a) == Rendered(b)
    ensures a == b
  {
    BodyName(a.part);
    BodyName(b.part);
    hide IsBody;
    var u, v := Written(a.steps)[1..], Written(b.steps)[1..];
    assert Written(a.steps) == ['/'] + u && Written(b.steps) == ['/'] + v;
    assert Rendered(a)[5..] == a.part[5..] + (['/'] + u);
    assert Rendered(b)[5..] == b.part[5..] + (['/'] + v);
    SplitsOnce('/', a.part[5..], u, b.part[5..], v);
    assert a.part == a.part[..5] + a.part[5..] && b.part == b.part[..5] + b.part[5..];
    WrittenInjective(a.steps, b.steps);
  }

  // ---- The whole document ----

  /** A part by name: its parsed content and hyperlinks, None when that XML is unsafe or malformed. */
  datatype Part = Part(name: string, content: Option<seq<Node>>, links: Option<map<string, string>>)

  datatype Extraction = Extraction(blocks: seq<Block>, warnings: set<string>, readable: bool)

  const REVIEW := "Extracted content requires owner review before becoming a usable candidate fact."
  const UNREADABLE := "No readable text. A reviewed transcription or OCR import is required."

  predicate Parsed(p: Part) {
    p.content.Some? && p.links.Some?
  }

  /** All blocks of the parts that are read, part by part. */
  function AllBlocks(parts: seq<Part>): seq<Block> {
    if parts == [] then []
    else
      var p := parts[|parts| - 1];
      AllBlocks(parts[..|parts| - 1])
        + (if IsBody(p.name) && Parsed(p) then Blocks(p.links.value, p.content.value, p.name, []) else [])
  }

  function AllFlags(parts: seq<Part>): set<string> {
    if parts == [] then {}
    else
      var p := parts[|parts| - 1];
      AllFlags(parts[..|parts| - 1]) + (if IsBody(p.name) && Parsed(p) then Flags(p.content.value) else {})
  }

  predicate Legible(blank: string -> bool, blocks: seq<Block>) {
    exists i :: 0 <= i < |blocks| && blocks[i].kind != Link && !blank(blocks[i].text)
  }

  ghost predicate PartOk(p: Part) {
    IsBody(p.name) ==> Parsed(p) && Shallow(p.content.value, 0)
  }

  function PartNames(parts: seq<Part>): set<string> {
    set p | p in parts :: p.name
  }

  /** The locator texts are within what an extraction may hold. */
  predicate LocatorsFit(blocks: seq<Block>) {
    forall b :: b in blocks ==> |Rendered(b.locator)| <= MAX_LOCATOR
  }

  /** Every part that is read parses and is shallow enough, all blocks together fit, and so does each locator kept. */
  ghost predicate Extractable(blank: string -> bool, parts: seq<Part>) {
    && "word/document.xml" in PartNames(parts) && "[Content_Types].xml" in PartNames(parts)
    && (forall i :: 0 <= i < |parts| ==> PartOk(parts[i]))
    && Fits(blank, AllBlocks(parts))
    && LocatorsFit(Kept(blank, AllBlocks(parts)))
  }

  lemma PartNext(parts: seq<Part>, i: nat)
    requires i < |parts|
    ensures var p := parts[i]; var read := IsBody(p.name) && Parsed(p);
            && AllBlocks(parts[..i + 1]) == AllBlocks(parts[..i])
               + (if read then Blocks(p.links.value, p.content.value, p.name, []) else [])
            && AllFlags(parts[..i + 1]) == AllFlags(parts[..i]) + (if read then Flags(p.content.value) else {})
  {
    assert parts[..i + 1][..i] == parts[..i];
  }

  lemma {:induction false} PartsPrefix(blank: string -> bool, parts: seq<Part>, i: nat)
    requires i <= |parts| && Fits(blank, AllBlocks(parts))
    ensures Fits(blank, AllBlocks(parts[..i]))
    decreases |parts| - i
  {
    hide Fits, Blocks, IsBody, Parsed;
    if i == |parts| {
      assert parts[..i] == parts;
    } else {
      PartsPrefix(blank, parts, i + 1);
      PartNext(parts, i);
      FitsPrefix(blank, AllBlocks(parts[..i + 1]), |AllBlocks(parts[..i])|);
    }
  }

  /**
   Extraction succeeds exactly when the document is extractable,
   and keeps the blocks that say something, in order.
   */
  method Extract(blank: string -> bool, parts: seq<Part>) returns (r: Option<Extraction>)
    ensures r.Some? <==> Extractable(blank, parts)
    ensures r.Some? ==>
              && r.value.blocks == Kept(blank, AllBlocks(parts))
              && r.value.readable == Legible(blank, r.value.blocks)
              && r.value.warnings == AllFlags(parts) + {REVIEW} + (if r.value.readable then {} else {UNREADABLE})
  {
    hide Fits, Blocks, IsBody, Shallow, Flags, Kept, LocatorsFit;
    if "word/document.xml" !in PartNames(parts) || "[Content_Types].xml" !in PartNames(parts) {
      return Option.None;
    }
    var c := new Collector(blank);
    for i := 0 to |parts|
      invariant fresh(c) && c.blank == blank && c.Valid() && c.offered == AllBlocks(parts[..i])
                && c.warnings == AllFlags(parts[..i])
      invariant forall k :: 0 <= k < i ==> PartOk(parts[k])
    {
      var p := parts[i];
      PartNext(parts, i);
      if IsBody(p.name) {
        if !Parsed(p) {
          return Option.None;
        }
        var ok := Walk(c, p.links.value, p.content.value, p.name, [], 0);
        if !ok {
          if Fits(blank, AllBlocks(parts)) {
            PartsPrefix(blank, parts, i + 1);
          }
          return Option.None;
        }
      }
    }
    assert parts[..|parts|] == parts;
    ValidFits(c);
    var readable := Legible(blank, c.blocks);
    if !LocatorsFit(c.blocks) {
      return Option.None;
    }
    r := Option.Some(Extraction(c.blocks, c.warnings + {REVIEW} + (if readable then {} else {UNREADABLE}), readable));
  }

  /** Every element of a tree has a proper name. */
  predicate WellNamed(nodes: seq<Node>) {
    forall i :: 0 <= i < |nodes| && nodes[i].Element? ==> IsName(nodes[i].tag) && WellNamed(nodes[i].children)
  }

  lemma {:induction false} StepsNamed(links: map<string, string>, nodes: seq<Node>, n: nat, part: string,
                                      path: seq<Step>, k: nat)
    requires n <= |nodes| && WellNamed(nodes) && Named(path) && k < |Blocks(links, nodes[..n], part, path)|
    ensures var l := Blocks(links, nodes[..n], part, path)[k].locator; l.part == part && l.steps != [] && Named(l.steps)
    decreases nodes, n
  {
    hide Blocks, Own, StepOf;
    SomeBlocks(links, nodes, n, part, path);
    var i := n - 1;
    BlocksNext(links, nodes, i, part, path);
    var before := |Blocks(links, nodes[..i], part, path)|;
    if k < before {
      StepsNamed(links, nodes, i, part, path, k);
    } else {
      var step, children := StepOf(nodes, i), nodes[i].children;
      var own := Own(links, nodes[i], part, path, step);
      StepTag(nodes, i);
      OwnIsOne(links, nodes[i], part, path, step);
      if k < before + |own| {
        assert own == [own[0]];
        OwnLocator(links, nodes[i], part, path, step, own[0]);
      } else {
        assert children[..|children|] == children;
        StepsNamed(links, children, |children|, part, path + [step], k - before - |own|);
      }
    }
  }

  lemma StepTag(nodes: seq<Node>, i: nat)
    requires i < |nodes| && nodes[i].Element?
    ensures StepOf(nodes, i).tag == nodes[i].tag
  {
  }

  /** The parts of an archive, each name once, with proper element names. */
  ghost predicate IsArchive(parts: seq<Part>) {
    && (forall i, j :: 0 <= i < j < |parts| ==> parts[i].name != parts[j].name)
    && forall i :: 0 <= i < |parts| && parts[i].content.Some? ==> WellNamed(parts[i].content.value)
  }

  lemma {:induction false} BlockOrigin(parts: seq<Part>, n: nat, k: nat) returns (i: nat)
    requires IsArchive(parts) && n <= |parts| && k < |AllBlocks(parts[..n])|
    ensures i < n && IsBody(parts[i].name)
    ensures var l := AllBlocks(parts[..n])[k].locator; l.part == parts[i].name && l.steps != [] && Named(l.steps)
  {
    hide Blocks, IsBody, WellNamed;
    assert n > 0;
    PartNext(parts, n - 1);
    var p, before := parts[n - 1], |AllBlocks(parts[..n - 1])|;
    if k < before {
      i := BlockOrigin(parts, n - 1, k);
    } else {
      i := n - 1;
      var nodes := p.content.value;
      assert nodes[..|nodes|] == nodes;
      StepsNamed(p.links.value, nodes, |nodes|, p.name, [], k - before);
    }
  }

  lemma {:induction false} AllLocatorsDistinct(parts: seq<Part>, n: nat, j: nat, k: nat)
    requires IsArchive(parts) && n <= |parts| && j < k < |AllBlocks(parts[..n])|
    ensures AllBlocks(parts[..n])[j].locator != AllBlocks(parts[..n])[k].locator
  {
    hide Blocks, IsBody, WellNamed;
    assert n > 0;
    PartNext(parts, n - 1);
    var p, before := parts[n - 1], |AllBlocks(parts[..n - 1])|;
    if k < before {
      AllLocatorsDistinct(parts, n - 1, j, k);
    } else if j < before {
      var i := BlockOrigin(parts, n - 1, j);
      var nodes := p.content.value;
      assert nodes[..|nodes|] == nodes;
      StepsNamed(p.links.value, nodes, |nodes|, p.name, [], k - before);
    } else {
      LocatorsDistinct(p.links.value, p.content.value, p.name, j - before, k - before);
    }
  }

  ghost predicate DistinctLocators(blocks: seq<Block>) {
    forall j, k :: 0 <= j < k < |blocks| ==> Rendered(blocks[j].locator) != Rendered(blocks[k].locator)
  }

  lemma {:induction false} KeptFrom(blank: string -> bool, blocks: seq<Block>, k: nat) returns (i: nat)
    requires k < |Kept(blank, blocks)|
    ensures i < |blocks| && Kept(blank, blocks)[k] == blocks[i]
  {
    var rest := blocks[..|blocks| - 1];
    if k < |Kept(blank, rest)| {
      i := KeptFrom(blank, rest, k);
    } else {
      i := |rest|;
    }
  }

  lemma {:induction false} KeptStaysDistinct(blank: string -> bool, blocks: seq<Block>)
    requires DistinctLocators(blocks)
    ensures DistinctLocators(Kept(blank, blocks))
  {
    hide Rendered, Says;
    if blocks != [] {
      var rest, last := blocks[..|blocks| - 1], blocks[|blocks| - 1];
      KeptStaysDistinct(blank, rest);
      forall j | 0 <= j < |Kept(blank, rest)|
        ensures Rendered(Kept(blank, rest)[j].locator) != Rendered(last.locator)
      {
        var i := KeptFrom(blank, rest, j);
        assert rest[i] == blocks[i];
      }
    }
  }

  /** The locator texts of an extraction are distinct, across all its parts. */
  lemma ExtractedLocatorsDistinct(blank: string -> bool, parts: seq<Part>)
    requires IsArchive(parts)
    ensures DistinctLocators(Kept(blank, AllBlocks(parts)))
  {
    hide AllBlocks, Rendered, IsArchive, IsBody;
    var blocks := AllBlocks(parts);
    assert parts[..|parts|] == parts;
    forall j, k | 0 <= j < k < |blocks|
      ensures Rendered(blocks[j].locator) != Rendered(blocks[k].locator)
    {
      AllLocatorsDistinct(parts, |parts|, j, k);
      var m := BlockOrigin(parts, |parts|, j);
      var n := BlockOrigin(parts, |parts|, k);
      if Rendered(blocks[j].locator) == Rendered(blocks[k].locator) {
        RenderedInjective(blocks[j].locator, blocks[k].locator);
      }
    }
    KeptStaysDistinct(blank, blocks);
  }
}
