/**
 What an extraction must hold, element by element: addresses of a parsed part by child positions, the elements
 that give a block, and the text below them (packages/candidate/src/extract.ts).
 */
module DocxContent {
  import opened Outcome
  import opened Collections
  import opened Docx

  /** Child positions from the root of a part down to a node. */
  type Spot = seq<nat>

  function NodeAt(nodes: seq<Node>, a: Spot): Option<Node>
    decreases |a|
  {
    if a == [] || a[0] >= |nodes| then Option.None
    else if |a| == 1 then Option.Some(nodes[a[0]])
    else if nodes[a[0]].Text? then Option.None
    else NodeAt(nodes[a[0]].children, a[1..])
  }

  // ---- A tour of a tree ----

  /** The node at `a` is picked, and lies below none where the tour stops. */
  ghost predicate Picked(nodes: seq<Node>, pick: Node -> bool, stop: Node -> bool, a: Spot) {
    && NodeAt(nodes, a).Some? && pick(NodeAt(nodes, a).value)
    && forall k :: 0 < k < |a| ==> !StopsAt(nodes, stop, a[..k])
  }

  ghost predicate StopsAt(nodes: seq<Node>, stop: Node -> bool, a: Spot) {
    NodeAt(nodes, a).Some? && stop(NodeAt(nodes, a).value)
  }

  function Below(i: nat, tour: seq<Spot>): (r: seq<Spot>)
    ensures |r| == |tour| && forall k :: 0 <= k < |r| ==> r[k] == [i] + tour[k]
  {
    seq(|tour|, k requires 0 <= k < |tour| => [i] + tour[k])
  }

  /** The addresses of the picked nodes, a node before those below it. */
  ghost function Tour(nodes: seq<Node>, pick: Node -> bool, stop: Node -> bool): seq<Spot>
    decreases nodes, 0
  {
    if nodes == [] then []
    else Tour(nodes[..|nodes| - 1], pick, stop) + TourAt(nodes[|nodes| - 1], |nodes| - 1, pick, stop)
  }

  ghost function TourAt(n: Node, i: nat, pick: Node -> bool, stop: Node -> bool): seq<Spot>
    decreases n, 1
  {
    (if pick(n) then [[i]] else [])
    + (if n.Text? || stop(n) then [] else Below(i, Tour(n.children, pick, stop)))
  }

  /** Addresses in document order. */
  ghost predicate Ordered(tour: seq<Spot>) {
    forall j, k :: 0 <= j < k < |tour| ==> Precedes(tour[j], tour[k])
  }

  lemma PrefixNode(nodes: seq<Node>, n: nat, a: Spot)
    requires n <= |nodes| && a != [] && a[0] < n
    ensures NodeAt(nodes[..n], a) == NodeAt(nodes, a)
  {
  }

  lemma ChildNode(nodes: seq<Node>, i: nat, a: Spot)
    requires i < |nodes| && nodes[i].Element? && a != []
    ensures NodeAt(nodes, [i] + a) == NodeAt(nodes[i].children, a)
  {
    assert ([i] + a)[1..] == a;
  }

  /** Being picked, one level down. */
  lemma PickedBelow(nodes: seq<Node>, pick: Node -> bool, stop: Node -> bool, i: nat, a: Spot)
    requires i < |nodes|
    ensures Picked(nodes, pick, stop, [i]) <==> pick(nodes[i])
    ensures a != [] ==>
              (Picked(nodes, pick, stop, [i] + a) <==>
               nodes[i].Element? && !stop(nodes[i]) && Picked(nodes[i].children, pick, stop, a))
  {
    if a != [] && nodes[i].Element? {
      var children, whole := nodes[i].children, [i] + a;
      ChildNode(nodes, i, a);
      assert whole[..1] == [i];
      assert StopsAt(nodes, stop, whole[..1]) <==> stop(nodes[i]);
      forall k | 0 < k < |a|
        ensures StopsAt(nodes, stop, whole[..k + 1]) <==> StopsAt(children, stop, a[..k])
      {
        assert whole[..k + 1] == [i] + a[..k];
        ChildNode(nodes, i, a[..k]);
      }
      BelowStops(nodes, stop, i, a);
    } else if a != [] {
      assert ([i] + a)[1..] == a;
    }
  }

  lemma BelowStops(nodes: seq<Node>, stop: Node -> bool, i: nat, a: Spot)
    requires i < |nodes| && nodes[i].Element? && a != []
    requires forall k :: 0 < k < |a| ==>
               var f := k + 1; StopsAt(nodes, stop, ([i] + a)[..f]) <==> StopsAt(nodes[i].children, stop, a[..k])
    requires StopsAt(nodes, stop, ([i] + a)[..1]) <==> stop(nodes[i])
    ensures (forall k :: 0 < k < |[i] + a| ==> !StopsAt(nodes, stop, ([i] + a)[..k])) <==>
              !stop(nodes[i]) && forall k :: 0 < k < |a| ==> !StopsAt(nodes[i].children, stop, a[..k])
  {
    hide StopsAt;
    var whole := [i] + a;
    if !stop(nodes[i]) && forall k :: 0 < k < |a| ==> !StopsAt(nodes[i].children, stop, a[..k]) {
      forall k | 0 < k < |whole|
        ensures !StopsAt(nodes, stop, whole[..k])
      {
        if k > 1 {
          var j := k - 1;
          assert !StopsAt(nodes[i].children, stop, a[..j]);
        }
      }
    }
    if forall k :: 0 < k < |whole| ==> !StopsAt(nodes, stop, whole[..k]) {
      assert !StopsAt(nodes, stop, whole[..1]);
      forall k | 0 < k < |a|
        ensures !StopsAt(nodes[i].children, stop, a[..k])
      {
        var f := k + 1;
        assert !StopsAt(nodes, stop, whole[..f]);
      }
    }
  }

  lemma PickedPrefix(nodes: seq<Node>, pick: Node -> bool, stop: Node -> bool, n: nat, a: Spot)
    requires n <= |nodes| && a != [] && a[0] < n
    ensures Picked(nodes[..n], pick, stop, a) <==> Picked(nodes, pick, stop, a)
  {
    PrefixNode(nodes, n, a);
    forall k | 0 < k < |a|
      ensures StopsAt(nodes[..n], stop, a[..k]) <==> StopsAt(nodes, stop, a[..k])
    {
      PrefixNode(nodes, n, a[..k]);
    }
  }

  lemma PickedStarts(nodes: seq<Node>, pick: Node -> bool, stop: Node -> bool, a: Spot)
    requires Picked(nodes, pick, stop, a)
    ensures a != [] && a[0] < |nodes|
  {
  }

  /** A tour visits exactly the picked nodes, in document order. */
  ghost predicate TourOk(nodes: seq<Node>, pick: Node -> bool, stop: Node -> bool, tour: seq<Spot>) {
    Ordered(tour) && forall a :: a in tour <==> Picked(nodes, pick, stop, a)
  }

  lemma {:induction false} TourIsExact(nodes: seq<Node>, pick: Node -> bool, stop: Node -> bool)
    ensures TourOk(nodes, pick, stop, Tour(nodes, pick, stop))
    decreases nodes
  {
    hide Picked, Precedes;
    if nodes == [] {
      NothingPicked(nodes, pick, stop);
    } else {
      var i := |nodes| - 1;
      var rest, n := nodes[..i], nodes[i];
      TourIsExact(rest, pick, stop);
      if n.Element? {
        TourIsExact(n.children, pick, stop);
      }
      TourAtIsExact(nodes, i, pick, stop);
      Joins(nodes, i, Tour(rest, pick, stop), TourAt(n, i, pick, stop), pick, stop);
    }
  }

  lemma NothingPicked(nodes: seq<Node>, pick: Node -> bool, stop: Node -> bool)
    requires nodes == []
    ensures forall a :: !Picked(nodes, pick, stop, a)
  {
  }

  /** The spots of a tour that start at position `i`. */
  lemma TourAtIsExact(nodes: seq<Node>, i: nat, pick: Node -> bool, stop: Node -> bool)
    requires i < |nodes|
    requires nodes[i].Element? ==>
               TourOk(nodes[i].children, pick, stop, Tour(nodes[i].children, pick, stop))
    ensures Ordered(TourAt(nodes[i], i, pick, stop))
    ensures forall a :: a in TourAt(nodes[i], i, pick, stop) <==>
                          Picked(nodes, pick, stop, a) && a != [] && a[0] == i
  {
    hide Picked, Precedes, Tour;
    var n := nodes[i];
    var tour := TourAt(n, i, pick, stop);
    var own: seq<Spot> := if pick(n) then [[i]] else [];
    var inner := if n.Text? || stop(n) then [] else Tour(n.children, pick, stop);
    assert tour == own + Below(i, inner);
    if n.Element? {
      NotEmptyPicked(n.children, pick, stop);
    }
    forall a
      ensures a in tour <==> Picked(nodes, pick, stop, a) && a != [] && a[0] == i
    {
      InTourAt(nodes, i, pick, stop, own, inner, a);
    }
    BelowOrdered(i, own, inner);
  }

  lemma InTourAt(nodes: seq<Node>, i: nat, pick: Node -> bool, stop: Node -> bool, own: seq<Spot>, inner: seq<Spot>,
                 a: Spot)
    requires i < |nodes| && own == (if pick(nodes[i]) then [[i]] else [])
    requires if nodes[i].Text? || stop(nodes[i]) then inner == []
             else forall b :: b in inner <==> Picked(nodes[i].children, pick, stop, b)
    requires forall b :: b in inner ==> b != []
    ensures a in own + Below(i, inner) <==> Picked(nodes, pick, stop, a) && a != [] && a[0] == i
  {
    hide Picked;
    if a != [] && a[0] == i {
      var b := a[1..];
      assert a == [i] + b;
      PickedBelow(nodes, pick, stop, i, b);
      if b == [] {
        assert a == [i];
        assert forall k :: 0 <= k < |inner| ==> |Below(i, inner)[k]| == 1 + |inner[k]| && inner[k] in inner;
      } else {
        InBelow(i, inner, b);
        assert a != [i];
      }
    } else {
      assert a !in Below(i, inner);
    }
  }

  lemma NotEmptyPicked(nodes: seq<Node>, pick: Node -> bool, stop: Node -> bool)
    ensures !Picked(nodes, pick, stop, [])
  {
  }

  lemma InBelow(i: nat, inner: seq<Spot>, b: Spot)
    ensures [i] + b in Below(i, inner) <==> b in inner
  {
    if k :| 0 <= k < |inner| && inner[k] == b {
      assert Below(i, inner)[k] == [i] + b;
    }
    if k :| 0 <= k < |inner| && Below(i, inner)[k] == [i] + b {
      assert ([i] + inner[k])[1..] == inner[k] && ([i] + b)[1..] == b;
    }
  }

  lemma BelowOrdered(i: nat, own: seq<Spot>, inner: seq<Spot>)
    requires Ordered(inner) && (own == [] || own == [[i]]) && forall b :: b in inner ==> b != []
    ensures Ordered(own + Below(i, inner))
  {
    var tour := own + Below(i, inner);
    forall j, k | 0 <= j < k < |tour|
      ensures Precedes(tour[j], tour[k])
    {
      if j < |own| {
        assert inner[k - |own|] in inner;
        BeforeAll(inner[k - |own|]);
        PrecedesBelow(i, [], inner[k - |own|]);
      } else {
        PrecedesBelow(i, inner[j - |own|], inner[k - |own|]);
      }
    }
  }

  /** The tour of a prefix, then what starts at the last position. */
  lemma Joins(nodes: seq<Node>, i: nat, before: seq<Spot>, at: seq<Spot>, pick: Node -> bool, stop: Node -> bool)
    requires i == |nodes| - 1 && TourOk(nodes[..i], pick, stop, before) && Ordered(at)
    requires forall a :: a in at <==> Picked(nodes, pick, stop, a) && a != [] && a[0] == i
    ensures TourOk(nodes, pick, stop, before + at)
  {
    hide Picked, Precedes;
    forall a
      ensures a in before + at <==> Picked(nodes, pick, stop, a)
    {
      if Picked(nodes[..i], pick, stop, a) {
        PickedStarts(nodes[..i], pick, stop, a);
        PickedPrefix(nodes, pick, stop, i, a);
      } else if Picked(nodes, pick, stop, a) {
        PickedStarts(nodes, pick, stop, a);
        if a[0] < i {
          PickedPrefix(nodes, pick, stop, i, a);
        }
      }
    }
    forall j, k | 0 <= j < |before| && 0 <= k < |at|
      ensures Precedes(before[j], at[k])
    {
      assert before[j] in before && at[k] in at;
      PickedStarts(nodes[..i], pick, stop, before[j]);
      FirstDecides(before[j], at[k]);
    }
  }

  // ---- Text ----

  /** What a node stands for in the text, unless its children do. */
  function Piece(n: Node): Option<string> {
    match n
    case Text(value) => Option.Some(value)
    case Element(tag, _, _) =>
      if tag == "tab" then Option.Some("\t") else if tag in {"br", "cr"} then Option.Some("\n") else Option.None
  }

  predicate IsPiece(n: Node) {
    Piece(n).Some?
  }

  ghost function PieceAt(nodes: seq<Node>, a: Spot): string {
    if NodeAt(nodes, a).Some? && IsPiece(NodeAt(nodes, a).value) then Piece(NodeAt(nodes, a).value).value else ""
  }

  ghost function Joined(nodes: seq<Node>, tour: seq<Spot>): string {
    if tour == [] then "" else Joined(nodes, tour[..|tour| - 1]) + PieceAt(nodes, tour[|tour| - 1])
  }

  /** `text` is made of the text leaves, tabs and line breaks below `nodes`, each once, in document order. */
  ghost predicate IsTextOf(nodes: seq<Node>, text: string) {
    exists tour :: TourOk(nodes, IsPiece, IsPiece, tour) && text == Joined(nodes, tour)
  }

  lemma {:induction false} JoinedSplits(nodes: seq<Node>, a: seq<Spot>, b: seq<Spot>)
    ensures Joined(nodes, a + b) == Joined(nodes, a) + Joined(nodes, b)
  {
    hide PieceAt;
    if b == [] {
      assert a + b == a;
    } else {
      assert (a + b)[..|a + b| - 1] == a + b[..|b| - 1];
      JoinedSplits(nodes, a, b[..|b| - 1]);
      Associate(Joined(nodes, a), Joined(nodes, b[..|b| - 1]), PieceAt(nodes, b[|b| - 1]));
    }
  }

  lemma {:induction false} JoinedPrefix(nodes: seq<Node>, n: nat, tour: seq<Spot>)
    requires n <= |nodes| && forall k :: 0 <= k < |tour| ==> tour[k] != [] && tour[k][0] < n
    ensures Joined(nodes[..n], tour) == Joined(nodes, tour)
  {
    if tour != [] {
      JoinedPrefix(nodes, n, tour[..|tour| - 1]);
      PrefixNode(nodes, n, tour[|tour| - 1]);
    }
  }

  lemma {:induction false} JoinedBelow(nodes: seq<Node>, i: nat, inner: seq<Spot>)
    requires i < |nodes| && nodes[i].Element? && forall k :: 0 <= k < |inner| ==> inner[k] != []
    ensures Joined(nodes, Below(i, inner)) == Joined(nodes[i].children, inner)
  {
    if inner != [] {
      var rest := inner[..|inner| - 1];
      assert Below(i, inner)[..|inner| - 1] == Below(i, rest);
      JoinedBelow(nodes, i, rest);
      ChildNode(nodes, i, inner[|inner| - 1]);
    }
  }

  lemma TourStarts(nodes: seq<Node>, pick: Node -> bool, stop: Node -> bool)
    ensures forall a :: a in Tour(nodes, pick, stop) ==> a != [] && a[0] < |nodes|
  {
    TourIsExact(nodes, pick, stop);
    forall a | a in Tour(nodes, pick, stop)
      ensures a != [] && a[0] < |nodes|
    {
      PickedStarts(nodes, pick, stop, a);
    }
  }

  lemma {:induction false} PlainIsJoined(nodes: seq<Node>)
    ensures Plain(nodes) == Joined(nodes, Tour(nodes, IsPiece, IsPiece))
    decreases nodes
  {
    if nodes != [] {
      var i := |nodes| - 1;
      var rest, n := nodes[..i], nodes[i];
      var before, at := Tour(rest, IsPiece, IsPiece), TourAt(n, i, IsPiece, IsPiece);
      PlainIsJoined(rest);
      TourStarts(rest, IsPiece, IsPiece);
      assert forall k :: 0 <= k < |before| ==> before[k] in before;
      JoinedPrefix(nodes, i, before);
      JoinedSplits(nodes, before, at);
      if n.Element? && !IsPiece(n) {
        PlainIsJoined(n.children);
      }
      PieceIsJoined(nodes, i);
    }
  }

  lemma PieceIsJoined(nodes: seq<Node>, i: nat)
    requires i < |nodes|
    requires nodes[i].Element? && !IsPiece(nodes[i]) ==>
               Plain(nodes[i].children) == Joined(nodes[i].children, Tour(nodes[i].children, IsPiece, IsPiece))
    ensures PlainOf(nodes[i]) == Joined(nodes, TourAt(nodes[i], i, IsPiece, IsPiece))
  {
    hide Tour, Joined, PieceAt;
    var n := nodes[i];
    var at := TourAt(n, i, IsPiece, IsPiece);
    if IsPiece(n) {
      assert at == [[i]] + [] == [[i]];
      JoinedOne(nodes, i);
    } else {
      var inner := Tour(n.children, IsPiece, IsPiece);
      assert at == [] + Below(i, inner) == Below(i, inner);
      TourStarts(n.children, IsPiece, IsPiece);
      assert forall k :: 0 <= k < |inner| ==> inner[k] in inner;
      JoinedBelow(nodes, i, inner);
    }
  }

  lemma JoinedOne(nodes: seq<Node>, i: nat)
    requires i < |nodes| && IsPiece(nodes[i])
    ensures Joined(nodes, [[i]]) == PlainOf(nodes[i])
  {
    var one: seq<Spot> := [[i]];
    assert one[..0] == [] && one[0] == [i];
    assert Joined(nodes, one[..0]) == "";
    assert Joined(nodes, one) == Joined(nodes, one[..0]) + PieceAt(nodes, one[0]);
  }

  /** The text of a block is the text below its element. */
  lemma PlainIsText(nodes: seq<Node>)
    ensures IsTextOf(nodes, Plain(nodes))
  {
    TourIsExact(nodes, IsPiece, IsPiece);
    PlainIsJoined(nodes);
  }

  // ---- Locators ----

  /** The children among which the last position of a spot counts. */
  ghost function Siblings(nodes: seq<Node>, a: Spot): seq<Node> {
    if |a| <= 1 then nodes
    else
      var parent := NodeAt(nodes, a[..|a| - 1]);
      if parent.Some? && parent.value.Element? then parent.value.children else []
  }

  /** The first `n` siblings with a tag. */
  ghost function Tagged(siblings: seq<Node>, n: nat, tag: string): set<nat> {
    set j: nat | j < n && j < |siblings| && siblings[j].Element? && siblings[j].tag == tag
  }

  /** `step` names the element at `a`: its tag, and which of the siblings with that tag it is, from 1. */
  ghost predicate StepAt(nodes: seq<Node>, a: Spot, step: Step) {
    && a != [] && NodeAt(nodes, a).Some? && NodeAt(nodes, a).value.Element?
    && step.tag == NodeAt(nodes, a).value.tag
    && step.index == |Tagged(Siblings(nodes, a), a[|a| - 1] + 1, step.tag)|
  }

  /** `steps` names every element on the way to `a`. */
  ghost predicate IsLocator(nodes: seq<Node>, a: Spot, steps: seq<Step>) {
    |steps| == |a| && forall k :: 0 <= k < |steps| ==> var f := k + 1; StepAt(nodes, a[..f], steps[k])
  }

  lemma {:induction false} CountIsSize(nodes: seq<Node>, n: nat, tag: string)
    requires n <= |nodes|
    ensures CountTag(nodes[..n], tag) == |Tagged(nodes, n, tag)|
  {
    if n == 0 {
      assert Tagged(nodes, 0, tag) == {};
    } else {
      var m: nat := n - 1;
      CountIsSize(nodes, m, tag);
      assert nodes[..n][..m] == nodes[..m] && nodes[..n][m] == nodes[m];
      TaggedNext(nodes, m, tag);
      hide Tagged;
    }
  }

  lemma TaggedNext(nodes: seq<Node>, m: nat, tag: string)
    requires m < |nodes|
    ensures |Tagged(nodes, m + 1, tag)| == |Tagged(nodes, m, tag)|
            + (if nodes[m].Element? && nodes[m].tag == tag then 1 else 0)
  {
    if nodes[m].Element? && nodes[m].tag == tag {
      assert Tagged(nodes, m + 1, tag) == Tagged(nodes, m, tag) + {m};
    } else {
      assert Tagged(nodes, m + 1, tag) == Tagged(nodes, m, tag);
    }
  }

  lemma OwnStep(nodes: seq<Node>, i: nat)
    requires i < |nodes| && nodes[i].Element?
    ensures IsLocator(nodes, [i], [StepOf(nodes, i)])
  {
    CountIsSize(nodes, i, nodes[i].tag);
    CountIsSize(nodes, i + 1, nodes[i].tag);
    assert nodes[..i + 1][..i] == nodes[..i];
    assert [i][..1] == [i];
  }

  lemma BelowStep(nodes: seq<Node>, i: nat, a: Spot, step: Step)
    requires i < |nodes| && nodes[i].Element? && a != []
    ensures StepAt(nodes, [i] + a, step) <==> StepAt(nodes[i].children, a, step)
  {
    ChildNode(nodes, i, a);
    var whole := [i] + a;
    if |a| > 1 {
      var up := a[..|a| - 1];
      assert whole[..|whole| - 1] == [i] + up;
      ChildNode(nodes, i, up);
    } else {
      assert whole[..|whole| - 1] == [i];
    }
  }

  lemma BelowLocator(nodes: seq<Node>, i: nat, a: Spot, steps: seq<Step>)
    requires i < |nodes| && nodes[i].Element? && a != [] && IsLocator(nodes[i].children, a, steps)
    ensures IsLocator(nodes, [i] + a, [StepOf(nodes, i)] + steps)
  {
    hide StepAt, StepOf;
    OwnStep(nodes, i);
    var whole, all := [i] + a, [StepOf(nodes, i)] + steps;
    forall k | 0 <= k < |all|
      ensures var f := k + 1; StepAt(nodes, whole[..f], all[k])
    {
      if k == 0 {
        assert whole[..1] == [i] == [i][..1];
      } else {
        assert whole[..k + 1] == [i] + a[..k];
        BelowStep(nodes, i, a[..k], steps[k - 1]);
      }
    }
  }

  // ---- Blocks ----

  predicate Never(n: Node) {
    false
  }

  /** A paragraph, or a hyperlink whose relationship has an address. */
  predicate Gives(links: map<string, string>, n: Node) {
    n.Element? && (n.tag == "p" || (n.tag == "hyperlink" && n.id in links && links[n.id] != ""))
  }

  ghost predicate BelowCell(nodes: seq<Node>, a: Spot) {
    exists k :: 0 < k < |a| && IsCell(nodes, a[..k])
  }

  ghost predicate IsCell(nodes: seq<Node>, a: Spot) {
    NodeAt(nodes, a).Some? && NodeAt(nodes, a).value.Element? && NodeAt(nodes, a).value.tag == "tc"
  }

  /**
   `b` is the block that the giving element at `a` must give: located in its part, with the text below it, as a
   paragraph, as a table cell exactly when it lies below one, or as a link with its address.
   */
  ghost predicate Describes(links: map<string, string>, nodes: seq<Node>, part: string, a: Spot, b: Block) {
    && b.locator.part == part && IsLocator(nodes, a, b.locator.steps)
    && Shows(links, nodes, a, b, BelowCell(nodes, a))
  }

  ghost predicate Shows(links: map<string, string>, nodes: seq<Node>, a: Spot, b: Block, cell: bool) {
    && NodeAt(nodes, a).Some? && Gives(links, NodeAt(nodes, a).value)
    && var n := NodeAt(nodes, a).value;
       && IsTextOf(n.children, b.text)
       && (n.tag == "p" ==> b.url.None? && b.kind == (if cell then TableCell else Paragraph))
       && (n.tag == "hyperlink" ==> b.url == Option.Some(links[n.id]) && b.kind == Link)
  }

  /** The same for nodes found below `path`. */
  ghost predicate DescribesBelow(links: map<string, string>, nodes: seq<Node>, part: string, path: seq<Step>, a: Spot,
                                 b: Block) {
    && b.locator.part == part && path <= b.locator.steps && IsLocator(nodes, a, b.locator.steps[|path|..])
    && Shows(links, nodes, a, b, InCell(path) || BelowCell(nodes, a))
  }

  ghost function Places(links: map<string, string>, nodes: seq<Node>): seq<Spot> {
    Tour(nodes, n => Gives(links, n), Never)
  }

  lemma OwnDescribed(links: map<string, string>, nodes: seq<Node>, i: nat, part: string, path: seq<Step>)
    requires i < |nodes| && nodes[i].Element?
    ensures var own := Own(links, nodes[i], part, path, StepOf(nodes, i));
            && |own| == (if Gives(links, nodes[i]) then 1 else 0)
            && (own != [] ==> DescribesBelow(links, nodes, part, path, [i], own[0]))
  {
    hide StepOf, IsTextOf, IsLocator, Plain;
    OwnStep(nodes, i);
    PlainIsText(nodes[i].children);
    assert (path + [StepOf(nodes, i)])[|path|..] == [StepOf(nodes, i)];
  }

  lemma BelowDescribed(links: map<string, string>, nodes: seq<Node>, i: nat, part: string, path: seq<Step>, a: Spot,
                       b: Block)
    requires i < |nodes| && nodes[i].Element? && a != []
    requires DescribesBelow(links, nodes[i].children, part, path + [StepOf(nodes, i)], a, b)
    ensures DescribesBelow(links, nodes, part, path, [i] + a, b)
  {
    hide IsTextOf, IsLocator, StepOf;
    var step, children := StepOf(nodes, i), nodes[i].children;
    var inner := path + [step];
    var rest := b.locator.steps[|inner|..];
    assert b.locator.steps[|path|..] == [step] + rest by {
      assert b.locator.steps == inner + rest;
    }
    BelowLocator(nodes, i, a, rest);
    ChildNode(nodes, i, a);
    StepTag(nodes, i);
    CellBelow(nodes, i, a);
    assert InCell(inner) <==> InCell(path) || step.tag == "tc" by {
      assert inner[|path|] == step;
      assert forall k :: 0 <= k < |path| ==> inner[k] == path[k];
    }
  }

  lemma CellBelow(nodes: seq<Node>, i: nat, a: Spot)
    requires i < |nodes| && nodes[i].Element? && a != []
    ensures BelowCell(nodes, [i] + a) <==> nodes[i].tag == "tc" || BelowCell(nodes[i].children, a)
  {
    hide IsCell;
    var whole := [i] + a;
    assert whole[..1] == [i];
    OwnCell(nodes, i);
    forall k | 0 < k < |a|
      ensures var f := k + 1; IsCell(nodes, whole[..f]) <==> IsCell(nodes[i].children, a[..k])
    {
      assert whole[..k + 1] == [i] + a[..k];
      CellOneDown(nodes, i, a[..k]);
    }
    if k :| 0 < k < |a| && IsCell(nodes[i].children, a[..k]) {
      var f := k + 1;
      assert IsCell(nodes, whole[..f]);
    }
    if k :| 0 < k < |whole| && IsCell(nodes, whole[..k]) {
      if k > 1 {
        var j := k - 1;
        assert IsCell(nodes[i].children, a[..j]);
      }
    }
  }

  lemma OwnCell(nodes: seq<Node>, i: nat)
    requires i < |nodes| && nodes[i].Element?
    ensures IsCell(nodes, [i]) <==> nodes[i].tag == "tc"
  {
  }

  lemma CellOneDown(nodes: seq<Node>, i: nat, a: Spot)
    requires i < |nodes| && nodes[i].Element? && a != []
    ensures IsCell(nodes, [i] + a) <==> IsCell(nodes[i].children, a)
  {
    ChildNode(nodes, i, a);
  }

  ghost predicate AllDescribed(links: map<string, string>, nodes: seq<Node>, part: string, path: seq<Step>,
                               tour: seq<Spot>, blocks: seq<Block>) {
    |tour| == |blocks| && forall k :: 0 <= k < |tour| ==> DescribesBelow(links, nodes, part, path, tour[k], blocks[k])
  }

  lemma StepInMore(nodes: seq<Node>, n: nat, a: Spot, step: Step)
    requires n <= |nodes| && a != [] && a[0] < n && StepAt(nodes[..n], a, step)
    ensures StepAt(nodes, a, step)
  {
    PrefixNode(nodes, n, a);
    if |a| > 1 {
      PrefixNode(nodes, n, a[..|a| - 1]);
    } else {
      assert Tagged(nodes[..n], a[0] + 1, step.tag) == Tagged(nodes, a[0] + 1, step.tag);
    }
  }

  lemma DescribedInMore(links: map<string, string>, nodes: seq<Node>, n: nat, part: string, path: seq<Step>, a: Spot,
                        b: Block)
    requires n <= |nodes| && a != [] && a[0] < n && DescribesBelow(links, nodes[..n], part, path, a, b)
    ensures DescribesBelow(links, nodes, part, path, a, b)
  {
    hide StepAt, IsTextOf, InCell, NodeAt;
    PrefixNode(nodes, n, a);
    var steps := b.locator.steps[|path|..];
    forall k | 0 <= k < |steps|
      ensures var f := k + 1; StepAt(nodes, a[..f], steps[k])
    {
      var f := k + 1;
      assert StepAt(nodes[..n], a[..f], steps[k]);
      StepInMore(nodes, n, a[..f], steps[k]);
    }
    forall k | 0 < k < |a|
      ensures IsCell(nodes[..n], a[..k]) <==> IsCell(nodes, a[..k])
    {
      PrefixNode(nodes, n, a[..k]);
    }
  }

  /** One giving element, one block, in the order of a tour. */
  lemma {:induction false} BlocksDescribed(links: map<string, string>, nodes: seq<Node>, part: string, path: seq<Step>)
    ensures AllDescribed(links, nodes, part, path, Places(links, nodes), Blocks(links, nodes, part, path))
    decreases nodes
  {
    hide DescribesBelow, Own, StepOf;
    if nodes != [] {
      var i := |nodes| - 1;
      var rest, n := nodes[..i], nodes[i];
      BlocksDescribed(links, rest, part, path);
      TourStarts(rest, n => Gives(links, n), Never);
      MoreDescribed(links, nodes, i, part, path);
      if n.Element? {
        BlocksDescribed(links, n.children, part, path + [StepOf(nodes, i)]);
        AtDescribed(links, nodes, i, part, path);
      }
      Concatenated(links, nodes, part, path);
    }
  }

  ghost function PlacesAt(links: map<string, string>, nodes: seq<Node>, i: nat): seq<Spot>
    requires i < |nodes|
  {
    TourAt(nodes[i], i, n => Gives(links, n), Never)
  }

  lemma MoreDescribed(links: map<string, string>, nodes: seq<Node>, n: nat, part: string, path: seq<Step>)
    requires n <= |nodes|
    requires AllDescribed(links, nodes[..n], part, path, Places(links, nodes[..n]),
                          Blocks(links, nodes[..n], part, path))
    ensures AllDescribed(links, nodes, part, path, Places(links, nodes[..n]), Blocks(links, nodes[..n], part, path))
  {
    hide DescribesBelow, Places, Blocks;
    var tour, blocks := Places(links, nodes[..n]), Blocks(links, nodes[..n], part, path);
    PlacesStart(links, nodes[..n]);
    forall k | 0 <= k < |tour|
      ensures DescribesBelow(links, nodes, part, path, tour[k], blocks[k])
    {
      assert tour[k] in tour;
      DescribedInMore(links, nodes, n, part, path, tour[k], blocks[k]);
    }
  }

  lemma PlacesStart(links: map<string, string>, nodes: seq<Node>)
    ensures forall a :: a in Places(links, nodes) ==> a != [] && a[0] < |nodes|
  {
    TourStarts(nodes, n => Gives(links, n), Never);
  }

  lemma AtDescribed(links: map<string, string>, nodes: seq<Node>, i: nat, part: string, path: seq<Step>)
    requires i < |nodes| && nodes[i].Element?
    requires var inner := path + [StepOf(nodes, i)]; var children := nodes[i].children;
             AllDescribed(links, children, part, inner, Places(links, children), Blocks(links, children, part, inner))
    ensures AllDescribed(links, nodes, part, path, PlacesAt(links, nodes, i), BlocksAt(links, nodes, i, part, path))
  {
    hide DescribesBelow, Own, StepOf, Blocks, Tour, Gives;
    var step, children := StepOf(nodes, i), nodes[i].children;
    var own, below := Own(links, nodes[i], part, path, step), Blocks(links, children, part, path + [step]);
    var inner := Places(links, children);
    var pick := (n: Node) => Gives(links, n);
    assert PlacesAt(links, nodes, i) == (if pick(nodes[i]) then [[i]] else []) + Below(i, inner);
    OwnDescribed(links, nodes, i, part, path);
    PlacesStart(links, children);
    forall k | 0 <= k < |inner|
      ensures DescribesBelow(links, nodes, part, path, [i] + inner[k], below[k])
    {
      assert inner[k] in inner;
      BelowDescribed(links, nodes, i, part, path, inner[k], below[k]);
    }
  }

  lemma Concatenated(links: map<string, string>, nodes: seq<Node>, part: string, path: seq<Step>)
    requires nodes != []
    requires var i := |nodes| - 1;
             && AllDescribed(links, nodes, part, path, Places(links, nodes[..i]), Blocks(links, nodes[..i], part, path))
             && (nodes[i].Element? ==>
                   AllDescribed(links, nodes, part, path, PlacesAt(links, nodes, i),
                                BlocksAt(links, nodes, i, part, path)))
    ensures AllDescribed(links, nodes, part, path, Places(links, nodes), Blocks(links, nodes, part, path))
  {
    hide DescribesBelow, Own, StepOf, Blocks, Gives;
    var i := |nodes| - 1;
    assert nodes[..i + 1] == nodes;
    BlocksNext(links, nodes, i, part, path);
    PlacesNext(links, nodes, i);
    hide Places, PlacesAt;
  }

  lemma PlacesNext(links: map<string, string>, nodes: seq<Node>, i: nat)
    requires nodes != [] && i == |nodes| - 1
    ensures Places(links, nodes) == Places(links, nodes[..i]) + PlacesAt(links, nodes, i)
    ensures nodes[i].Text? ==> PlacesAt(links, nodes, i) == []
  {
  }

  // ---- The whole document ----

  /** An element of one of the parts. */
  datatype Place = Place(part: nat, at: Spot)

  ghost predicate GivesAt(parts: seq<Part>, place: Place) {
    && place.part < |parts| && IsBody(parts[place.part].name) && Parsed(parts[place.part])
    && var p := parts[place.part];
       NodeAt(p.content.value, place.at).Some? && Gives(p.links.value, NodeAt(p.content.value, place.at).value)
  }

  ghost predicate Earlier(a: Place, b: Place) {
    a.part < b.part || (a.part == b.part && Precedes(a.at, b.at))
  }

  ghost predicate DescribesAt(parts: seq<Part>, place: Place, b: Block)
    requires GivesAt(parts, place)
  {
    var p := parts[place.part];
    Describes(p.links.value, p.content.value, p.name, place.at, b)
  }

  /**
   `blocks` are the blocks of exactly the giving elements of the first `n` parts, as far as those are read: one
   each, part by part and in document order.
   */
  ghost predicate Complete(parts: seq<Part>, n: nat, places: seq<Place>, blocks: seq<Block>) {
    && |places| == |blocks|
    && (forall j, k :: 0 <= j < k < |places| ==> Earlier(places[j], places[k]))
    && (forall place :: place in places <==> GivesAt(parts, place) && place.part < n)
    && forall k :: 0 <= k < |places| ==> GivesAt(parts, places[k]) && DescribesAt(parts, places[k], blocks[k])
  }

  ghost function In(part: nat, tour: seq<Spot>): (r: seq<Place>)
    ensures |r| == |tour| && forall k :: 0 <= k < |r| ==> r[k] == Place(part, tour[k])
  {
    seq(|tour|, k requires 0 <= k < |tour| => Place(part, tour[k]))
  }

  /** The blocks of one part that is read. */
  lemma PartComplete(parts: seq<Part>, i: nat)
    requires i < |parts| && IsBody(parts[i].name) && Parsed(parts[i])
    ensures var p := parts[i]; var tour := Places(p.links.value, p.content.value);
            && (forall j, k :: 0 <= j < k < |tour| ==> Precedes(tour[j], tour[k]))
            && (forall a :: a in tour <==> GivesAt(parts, Place(i, a)))
            && var blocks := Blocks(p.links.value, p.content.value, p.name, []);
               |tour| == |blocks| && forall k :: 0 <= k < |tour| ==>
                 GivesAt(parts, Place(i, tour[k])) && DescribesAt(parts, Place(i, tour[k]), blocks[k])
  {
    var p := parts[i];
    var links, nodes := p.links.value, p.content.value;
    var tour, blocks := Places(links, nodes), Blocks(links, nodes, p.name, []);
    TourIsExact(nodes, n => Gives(links, n), Never);
    BlocksDescribed(links, nodes, p.name, []);
    hide IsBody, Blocks, Tour, Precedes, Gives, IsTextOf, IsLocator, BelowCell;
    forall a
      ensures a in tour <==> GivesAt(parts, Place(i, a))
    {
    }
    forall k | 0 <= k < |tour|
      ensures GivesAt(parts, Place(i, tour[k])) && DescribesAt(parts, Place(i, tour[k]), blocks[k])
    {
      assert tour[k] in tour;
      FromTheRoot(links, nodes, p.name, tour[k], blocks[k]);
    }
  }

  lemma FromTheRoot(links: map<string, string>, nodes: seq<Node>, part: string, a: Spot, b: Block)
    requires DescribesBelow(links, nodes, part, [], a, b)
    ensures Describes(links, nodes, part, a, b)
  {
    assert b.locator.steps[0..] == b.locator.steps;
  }

  lemma {:induction false} PartsComplete(parts: seq<Part>, n: nat) returns (places: seq<Place>)
    requires n <= |parts|
    ensures Complete(parts, n, places, AllBlocks(parts[..n]))
  {
    hide IsBody, Blocks, Places, Precedes, GivesAt, DescribesAt;
    if n == 0 {
      places := [];
    } else {
      var before := PartsComplete(parts, n - 1);
      var i, p := n - 1, parts[n - 1];
      PartNext(parts, i);
      if IsBody(p.name) && Parsed(p) {
        PartComplete(parts, i);
        var tour := Places(p.links.value, p.content.value);
        places := before + In(i, tour);
        PartsJoin(parts, n, before, tour, AllBlocks(parts[..i]), Blocks(p.links.value, p.content.value, p.name, []));
      } else {
        places := before;
        Unread(parts, i);
      }
    }
  }

  lemma Unread(parts: seq<Part>, i: nat)
    requires i < |parts| && !(IsBody(parts[i].name) && Parsed(parts[i]))
    ensures forall place :: GivesAt(parts, place) ==> place.part != i
  {
    hide IsBody;
  }

  lemma PartsJoin(parts: seq<Part>, n: nat, before: seq<Place>, tour: seq<Spot>, a: seq<Block>, b: seq<Block>)
    requires 0 < n <= |parts| && Complete(parts, n - 1, before, a) && |tour| == |b|
    requires forall j, k :: 0 <= j < k < |tour| ==> Precedes(tour[j], tour[k])
    requires forall at :: at in tour <==> GivesAt(parts, Place(n - 1, at))
    requires forall k :: 0 <= k < |tour| ==>
               GivesAt(parts, Place(n - 1, tour[k])) && DescribesAt(parts, Place(n - 1, tour[k]), b[k])
    ensures Complete(parts, n, before + In(n - 1, tour), a + b)
  {
    hide GivesAt, DescribesAt, Precedes, Earlier;
    PlacesJoin(parts, n, before, tour);
    EarlierJoin(parts, n, before, tour);
    DescribedJoin(parts, n - 1, before, tour, a, b);
    hide In;
  }

  lemma DescribedJoin(parts: seq<Part>, i: nat, before: seq<Place>, tour: seq<Spot>, a: seq<Block>, b: seq<Block>)
    requires |before| == |a| && |tour| == |b|
    requires forall k :: 0 <= k < |before| ==> GivesAt(parts, before[k]) && DescribesAt(parts, before[k], a[k])
    requires forall k :: 0 <= k < |tour| ==>
               GivesAt(parts, Place(i, tour[k])) && DescribesAt(parts, Place(i, tour[k]), b[k])
    ensures var places, blocks := before + In(i, tour), a + b;
            forall k :: 0 <= k < |places| ==> GivesAt(parts, places[k]) && DescribesAt(parts, places[k], blocks[k])
  {
    hide GivesAt, DescribesAt;
  }

  lemma PlacesJoin(parts: seq<Part>, n: nat, before: seq<Place>, tour: seq<Spot>)
    requires 0 < n && forall place :: place in before <==> GivesAt(parts, place) && place.part < n - 1
    requires forall at :: at in tour <==> GivesAt(parts, Place(n - 1, at))
    ensures forall place :: place in before + In(n - 1, tour) <==> GivesAt(parts, place) && place.part < n
  {
    hide GivesAt, In;
    var i: nat := n - 1;
    forall place
      ensures place in before + In(i, tour) <==> GivesAt(parts, place) && place.part < n
    {
      assert place in before + In(i, tour) <==> place in before || place in In(i, tour);
      InPart(i, tour, place);
      assert place.part == i ==> place == Place(i, place.at);
    }
  }

  lemma EarlierJoin(parts: seq<Part>, n: nat, before: seq<Place>, tour: seq<Spot>)
    requires 0 < n && forall j, k :: 0 <= j < k < |before| ==> Earlier(before[j], before[k])
    requires forall j, k :: 0 <= j < k < |tour| ==> Precedes(tour[j], tour[k])
    requires forall place :: place in before ==> place.part < n - 1
    ensures var places := before + In(n - 1, tour);
            forall j, k :: 0 <= j < k < |places| ==> Earlier(places[j], places[k])
  {
    hide Precedes;
    assert forall k :: 0 <= k < |before| ==> before[k] in before;
  }

  lemma InPart(i: nat, tour: seq<Spot>, place: Place)
    ensures place in In(i, tour) <==> place.part == i && place.at in tour
  {
    if place.part == i && place.at in tour {
      var k :| 0 <= k < |tour| && tour[k] == place.at;
      assert In(i, tour)[k] == place;
    }
  }

  /** `kept` is `blocks` without those that say nothing: no text but blanks, and no address. */
  ghost predicate Filtered(blank: string -> bool, blocks: seq<Block>, kept: seq<Block>, picks: seq<nat>) {
    && |picks| == |kept|
    && (forall j, k :: 0 <= j < k < |picks| ==> picks[j] < picks[k])
    && (forall i: nat :: i in picks <==> i < |blocks| && Telling(blank, blocks[i]))
    && forall k :: 0 <= k < |picks| ==> picks[k] < |blocks| && kept[k] == blocks[picks[k]]
  }

  predicate Telling(blank: string -> bool, b: Block) {
    !blank(b.text) || (b.url.Some? && b.url.value != "")
  }

  lemma {:induction false} KeptIsFiltered(blank: string -> bool, blocks: seq<Block>) returns (picks: seq<nat>)
    ensures Filtered(blank, blocks, Kept(blank, blocks), picks)
  {
    if blocks == [] {
      picks := [];
    } else {
      var n := |blocks| - 1;
      var rest, last := blocks[..n], blocks[n];
      var before := KeptIsFiltered(blank, rest);
      SaysIsTelling(blank, last);
      hide Says, Telling;
      assert forall i :: 0 <= i < n ==> blocks[i] == rest[i];
      if Says(blank, last) {
        picks := before + [n];
        OneMorePick(blank, blocks, Kept(blank, rest), before);
      } else {
        picks := before;
      }
    }
  }

  lemma SaysIsTelling(blank: string -> bool, b: Block)
    ensures Says(blank, b) <==> Telling(blank, b)
  {
  }

  lemma OneMorePick(blank: string -> bool, blocks: seq<Block>, kept: seq<Block>, before: seq<nat>)
    requires blocks != [] && Filtered(blank, blocks[..|blocks| - 1], kept, before)
    requires Telling(blank, blocks[|blocks| - 1])
    ensures Filtered(blank, blocks, kept + [blocks[|blocks| - 1]], before + [|blocks| - 1])
  {
    hide Telling;
    var n: nat := |blocks| - 1;
    var rest, picks := blocks[..n], before + [n];
    assert forall k :: 0 <= k < |before| ==> before[k] in before && before[k] < n;
    forall i: nat
      ensures i in picks <==> i < |blocks| && Telling(blank, blocks[i])
    {
      if i < n {
        assert i in picks <==> i in before;
        assert rest[i] == blocks[i];
      }
    }
  }

  /**
   An extraction holds, for exactly the paragraphs and addressed hyperlinks of the parts that are read, the block
   each of them must give, in order, except blocks that say nothing.
   */
  lemma ExtractionIsComplete(blank: string -> bool, parts: seq<Part>)
    ensures exists places, offered, picks ::
              && Complete(parts, |parts|, places, offered)
              && Filtered(blank, offered, Kept(blank, AllBlocks(parts)), picks)
  {
    assert parts[..|parts|] == parts;
    var places := PartsComplete(parts, |parts|);
    var picks := KeptIsFiltered(blank, AllBlocks(parts));
    assert Complete(parts, |parts|, places, AllBlocks(parts));
  }

  // ---- Limits and warnings ----

  ghost predicate IsElement(nodes: seq<Node>, a: Spot) {
    NodeAt(nodes, a).Some? && NodeAt(nodes, a).value.Element?
  }

  /** The nesting limit, as the length of the longest address of an element. */
  lemma {:induction false} ShallowMeans(nodes: seq<Node>, depth: nat)
    ensures Shallow(nodes, depth) <==>
              depth <= 120 && forall a :: IsElement(nodes, a) ==> depth + |a| <= 120
    decreases nodes
  {
    forall i | 0 <= i < |nodes| && nodes[i].Element?
      ensures Shallow(nodes[i].children, depth + 1) <==>
                depth + 1 <= 120 && forall a :: IsElement(nodes[i].children, a) ==> depth + 1 + |a| <= 120
    {
      ShallowMeans(nodes[i].children, depth + 1);
    }
    if depth <= 120 {
      if forall a :: IsElement(nodes, a) ==> depth + |a| <= 120 {
        forall i | 0 <= i < |nodes| && nodes[i].Element?
          ensures Shallow(nodes[i].children, depth + 1)
        {
          assert IsElement(nodes, [i]);
          forall a | IsElement(nodes[i].children, a)
            ensures depth + 1 + |a| <= 120
          {
            ChildNode(nodes, i, a);
            assert IsElement(nodes, [i] + a);
          }
        }
      }
      if Shallow(nodes, depth) {
        forall a | IsElement(nodes, a)
          ensures depth + |a| <= 120
        {
          if |a| > 1 {
            var i, b := a[0], a[1..];
            assert IsElement(nodes[i].children, b);
          }
        }
      }
    }
  }

  ghost predicate HasTag(nodes: seq<Node>, a: Spot, tag: string) {
    NodeAt(nodes, a).Some? && NodeAt(nodes, a).value.Element? && NodeAt(nodes, a).value.tag == tag
  }

  /** A warning stands for an element of one of these six kinds, wherever it is. */
  lemma {:induction false} FlagsAreFound(nodes: seq<Node>, tag: string)
    ensures tag in Flags(nodes) <==>
              tag in {"drawing", "pict", "altChunk", "object", "del", "ins"} && exists a :: HasTag(nodes, a, tag)
    decreases nodes
  {
    if nodes != [] {
      var i := |nodes| - 1;
      var rest, n := nodes[..i], nodes[i];
      FlagsAreFound(rest, tag);
      if n.Element? {
        FlagsAreFound(n.children, tag);
      }
      hide Flags;
      TagSplits(nodes, i, tag);
      FlagsSplit(nodes);
    }
  }

  lemma FlagsSplit(nodes: seq<Node>)
    requires nodes != []
    ensures Flags(nodes) == Flags(nodes[..|nodes| - 1]) + FlagsAt(nodes[|nodes| - 1])
  {
  }

  lemma TagSplits(nodes: seq<Node>, i: nat, tag: string)
    requires i == |nodes| - 1
    ensures (exists a :: HasTag(nodes, a, tag)) <==>
              || (exists a :: HasTag(nodes[..i], a, tag))
              || (nodes[i].Element? && (nodes[i].tag == tag || exists a :: HasTag(nodes[i].children, a, tag)))
  {
    if a :| HasTag(nodes, a, tag) {
      if a[0] < i {
        PrefixNode(nodes, i, a);
        assert HasTag(nodes[..i], a, tag);
      } else if |a| > 1 {
        assert HasTag(nodes[i].children, a[1..], tag);
      }
    }
    if a :| HasTag(nodes[..i], a, tag) {
      PrefixNode(nodes, i, a);
      assert HasTag(nodes, a, tag);
    }
    if nodes[i].Element? && nodes[i].tag == tag {
      assert HasTag(nodes, [i], tag);
    }
    if nodes[i].Element? {
      if a :| HasTag(nodes[i].children, a, tag) {
        ChildNode(nodes, i, a);
        assert HasTag(nodes, [i] + a, tag);
      }
    }
  }

  ghost function AllText(blocks: seq<Block>): string {
    if blocks == [] then "" else AllText(blocks[..|blocks| - 1]) + blocks[|blocks| - 1].text
  }

  ghost function TellingBefore(blank: string -> bool, blocks: seq<Block>, n: nat): set<nat> {
    set i: nat | i < n && i < |blocks| && Telling(blank, blocks[i])
  }

  lemma {:induction false} CharactersAreCounted(blocks: seq<Block>)
    ensures Characters(blocks) == |AllText(blocks)|
  {
    if blocks != [] {
      CharactersAreCounted(blocks[..|blocks| - 1]);
    }
  }

  lemma {:induction false} KeptIsCounted(blank: string -> bool, blocks: seq<Block>, n: nat)
    requires n <= |blocks|
    ensures |Kept(blank, blocks[..n])| == |TellingBefore(blank, blocks, n)|
  {
    if n == 0 {
      assert TellingBefore(blank, blocks, 0) == {};
    } else {
      var m: nat := n - 1;
      KeptIsCounted(blank, blocks, m);
      SaysIsTelling(blank, blocks[m]);
      assert blocks[..n][..m] == blocks[..m];
      if Telling(blank, blocks[m]) {
        assert TellingBefore(blank, blocks, n) == TellingBefore(blank, blocks, m) + {m};
      } else {
        assert TellingBefore(blank, blocks, n) == TellingBefore(blank, blocks, m);
      }
    }
  }

  /** An extraction is readable exactly when some paragraph or table cell offered has more than blanks. */
  lemma ReadableWhenSomeTextIs(blank: string -> bool, blocks: seq<Block>)
    ensures Legible(blank, Kept(blank, blocks)) <==>
              exists b :: b in blocks && (b.kind == Paragraph || b.kind == TableCell) && blank(b.text) == false
  {
    var kept := Kept(blank, blocks);
    var picks := KeptIsFiltered(blank, blocks);
    if Legible(blank, kept) {
      var k :| 0 <= k < |kept| && kept[k].kind != Link && !blank(kept[k].text);
      assert kept[k] == blocks[picks[k]];
    }
    if b :| b in blocks && (b.kind == Paragraph || b.kind == TableCell) && blank(b.text) == false {
      var i: nat :| i < |blocks| && blocks[i] == b;
      assert Telling(blank, blocks[i]) && i in picks;
      var k :| 0 <= k < |picks| && picks[k] == i;
      assert kept[k] == b;
    }
  }

  /** The collector's limits: all texts together, each text, and the blocks kept before each offer. */
  lemma LimitsMean(blank: string -> bool, offered: seq<Block>)
    ensures Fits(blank, offered) <==>
              && |AllText(offered)| <= 500000
              && forall k :: 0 <= k < |offered| ==>
                   |offered[k].text| <= 10000 && |TellingBefore(blank, offered, k)| < 20000
  {
    CharactersAreCounted(offered);
    forall k | 0 <= k < |offered|
      ensures |Kept(blank, offered[..k])| == |TellingBefore(blank, offered, k)|
    {
      KeptIsCounted(blank, offered, k);
    }
  }

  ghost predicate Numeral(digits: string) {
    forall i :: 0 <= i < |digits| ==> digits[i] in "0123456789"
  }

  /** The names of the parts that are read, between `word/` and `.xml`. */
  ghost predicate ReadStem(stem: string) {
    || stem in {"document", "footnotes", "endnotes"}
    || exists n: string :: Numeral(n) && (stem == "header" + n || stem == "footer" + n)
  }

  lemma NumeralIsDigits(n: string)
    ensures Numeral(n) <==> AllDigits(n)
  {
    assert forall c :: c in "0123456789" <==> c in ['0', '1', '2', '3', '4', '5', '6', '7', '8', '9'];
    if AllDigits(n) {
      assert forall i :: 0 <= i < |n| ==> n[i] in n;
    }
  }

  lemma BodiesAreRead(name: string)
    ensures IsBody(name) <==> exists stem :: ReadStem(stem) && name == "word/" + stem + ".xml"
  {
    hide IsStem, ReadStem;
    if IsBody(name) {
      var stem := name[5..|name| - 4];
      assert name == name[..5] + stem + name[|name| - 4..] && name[..5] == "word/";
      StemIsRead(stem);
    }
    if stem :| ReadStem(stem) && name == "word/" + stem + ".xml" {
      StemIsRead(stem);
      Middle(stem);
    }
  }

  lemma StemIsRead(stem: string)
    ensures IsStem(stem) <==> ReadStem(stem)
  {
    if n: string :| Numeral(n) && (stem == "header" + n || stem == "footer" + n) {
      assert stem[6..] == n;
      NumeralIsDigits(n);
    }
    if ("header" <= stem || "footer" <= stem) && AllDigits(stem[6..]) {
      assert stem == stem[..6] + stem[6..] && (stem[..6] == "header" || stem[..6] == "footer");
      NumeralIsDigits(stem[6..]);
    }
  }

  /** Every part that is read parses, and holds no element more than 120 levels deep. */
  ghost predicate Readable(p: Part) {
    (exists stem :: ReadStem(stem) && p.name == "word/" + stem + ".xml") ==>
      p.content.Some? && p.links.Some? && forall a :: IsElement(p.content.value, a) ==> |a| <= 120
  }

  lemma ReadableExactly(p: Part)
    ensures PartOk(p) <==> Readable(p)
  {
    BodiesAreRead(p.name);
    if p.content.Some? {
      ShallowMeans(p.content.value, 0);
    }
    hide Shallow, IsBody, ReadStem, IsElement;
  }

  /** When a document can be extracted: its parts, its limits, and locators of at most 2000 characters. */
  lemma ExtractableExactly(blank: string -> bool, parts: seq<Part>)
    ensures Extractable(blank, parts) <==>
              && (exists p :: p in parts && p.name == "word/document.xml")
              && (exists p :: p in parts && p.name == "[Content_Types].xml")
              && (forall p :: p in parts ==> Readable(p))
              && |AllText(AllBlocks(parts))| <= 500000
              && (forall k :: 0 <= k < |AllBlocks(parts)| ==>
                    |AllBlocks(parts)[k].text| <= 10000 && |TellingBefore(blank, AllBlocks(parts), k)| < 20000)
              && (forall b :: b in Kept(blank, AllBlocks(parts)) ==> |Rendered(b.locator)| <= 2000)
  {
    hide AllBlocks, Kept, Fits, Readable, PartOk, AllText, TellingBefore, Rendered;
    LimitsMean(blank, AllBlocks(parts));
    forall p
      ensures PartOk(p) <==> Readable(p)
    {
      ReadableExactly(p);
    }
  }

  lemma Middle(stem: string)
    ensures var name := "word/" + stem + ".xml";
            && |name| >= 9 && "word/" <= name && name[5..|name| - 4] == stem && name[|name| - 4..] == ".xml"
  {
  }
}
