/** `parse_element_by_coords` (utils.py): the six-key description of the element under a
    screen point, as the recorder attaches it to a click. */
module Resolution {
  import opened Wrappers
  import opened Text
  import opened Hierarchy
  import opened Locator

  /** The result dictionary. Its six keys are fixed (`xpath`, `resource_id`, `text`,
      `class_name`, `package`, `content_desc`), so it is a record with one field per key;
      `None` is a key left at its initial value. */
  datatype ElementInfo = ElementInfo(xpath: Option<string>, resourceId: Option<string>,
                                     text: Option<string>, className: Option<string>,
                                     package: Option<string>, contentDesc: Option<string>)

  /** The dictionary as it is first built: every key `None`. */
  const Unresolved := ElementInfo(None, None, None, None, None, None)

  /** The element the function reports on: the search result, unless that element is falsy
      (`if not target_element`). */
  function Target(b: Build, root: Element, x: int, y: int): (r: Option<seq<nat>>)
    ensures r.Some? ==> ValidPath(root, r.value) && Truthy(At(root, r.value))
    ensures r.Some? ==> InsideAlong(ParserOf(b), root, r.value, x, y)
  {
    match Find(ParserOf(b), root, x, y)
    case Some(p) => if Truthy(At(root, p)) then Some(p) else None
    case None => None
  }

  /** Only one kind of match is lost at the top: a search that ends on the root itself while
      the root has no children. Any deeper result is already truthy. */
  lemma TargetLosesOnlyLeafRoot(b: Build, root: Element, x: int, y: int)
    ensures Target(b, root, x, y).None? <==>
      Find(ParserOf(b), root, x, y).None? ||
      (Find(ParserOf(b), root, x, y) == Some([]) && root.children == [])
  {
  }

  /** The dictionary `parse_element_by_coords` returns, as a value. */
  function Describe(b: Build, root: Option<Element>, x: int, y: int): ElementInfo
  {
    if root.None? then Unresolved
    else match Target(b, root.value, x, y)
      case None => Unresolved
      case Some(p) =>
        var e := At(root.value, p);
        ElementInfo(if b == Repaired then Some(Render(Steps(root.value, p))) else None,
                    Get(e, "resource-id"), Get(e, "text"), Get(e, "class"), Get(e, "package"),
                    Get(e, "content-desc"))
  }

  /** `parse_element_by_coords(xml, x, y)`. `root` is the parsed snapshot, `None` when
      `ET.fromstring` raised. The dictionary starts with all six keys set to `None`; when a
      truthy target exists, its five attributes are copied in one by one, and then the
      locator: under `Repaired` it is generated, under `AsShipped` the call to `getparent`
      raises, the handler swallows it, and `xpath` stays `None`. */
  method ParseElementByCoords(b: Build, root: Option<Element>, x: int, y: int) returns (result: ElementInfo)
    ensures root.None? || Target(b, root.value, x, y).None? ==> result == Unresolved
    ensures root.Some? && Target(b, root.value, x, y).Some? ==>
      var p := Target(b, root.value, x, y).value;
      var e := At(root.value, p);
      result.resourceId == Get(e, "resource-id") && result.text == Get(e, "text") &&
      result.className == Get(e, "class") && result.package == Get(e, "package") &&
      result.contentDesc == Get(e, "content-desc") &&
      result.xpath == (if b == Repaired then Some(Render(Steps(root.value, p))) else None)
    ensures result == Describe(b, root, x, y)
  {
    result := Unresolved;
    if root.None? {
      return;
    }
    var found := Target(b, root.value, x, y);
    if found.None? {
      return;
    }
    var target := At(root.value, found.value);
    result := result.(resourceId := Get(target, "resource-id"));
    result := result.(text := Get(target, "text"));
    result := result.(className := Get(target, "class"));
    result := result.(package := Get(target, "package"));
    result := result.(contentDesc := Get(target, "content-desc"));
    if b == Repaired {
      var xpath := GenerateXPath(root.value, found.value);
      result := result.(xpath := Some(xpath));
    }
  }

  // ---------------------------------------------------------------------------------------
  // A two-node screen: a `hierarchy` root spanning `screen` with two `node` children, the
  // first spanning `first` and the second spanning `second`, the second holding `inner`.
  // ---------------------------------------------------------------------------------------

  function Bounded(tag: string, r: Rect, kids: seq<Element>): Element
  {
    Element(tag, map["bounds" := FormatBounds(r)], kids)
  }

  function TwoNodeScreen(screen: Rect, first: Rect, second: Rect, inner: seq<Element>): Element
  {
    Bounded("hierarchy", screen, [Bounded("node", first, []), Bounded("node", second, inner)])
  }

  lemma FormatBoundsNonEmpty(r: Rect)
    ensures FormatBounds(r) != ""
  {
    assert FormatBounds(r)[0] == '[';
  }

  lemma BoundedInside(parse: BoundsParser, tag: string, r: Rect, kids: seq<Element>, x: int, y: int)
    requires parse(FormatBounds(r)) == Some(r)
    ensures Inside(parse, Bounded(tag, r, kids), x, y) <==> Contains(r, x, y)
  {
    FormatBoundsNonEmpty(r);
  }

  /** Elements without children of their own. */
  predicate AllLeaves(kids: seq<Element>)
  {
    forall k :: 0 <= k < |kids| ==> kids[k].children == []
  }

  lemma TargetOfFind(b: Build, root: Element, x: int, y: int, p: seq<nat>)
    requires Find(ParserOf(b), root, x, y) == Some(p) && ValidPath(root, p) && Truthy(At(root, p))
    ensures Target(b, root, x, y) == Some(p)
  {
  }

  /** When no child qualifies, the search ends at the root itself. */
  lemma FindFallsBackToRoot(parse: BoundsParser, root: Element, x: int, y: int)
    requires Inside(parse, root, x, y)
    requires forall j :: 0 <= j < |root.children| ==> !ChildQualifies(parse, root, j, x, y)
    ensures Find(parse, root, x, y) == Some([])
  {
    FindPicksFirstTruthyChild(parse, root, x, y);
  }

  /** When child `j` is the first to qualify and is itself the search result below it, the
      search ends at that child. */
  lemma FindIsChild(parse: BoundsParser, root: Element, j: nat, x: int, y: int)
    requires Inside(parse, root, x, y)
    requires ChildQualifies(parse, root, j, x, y)
    requires forall i :: 0 <= i < j ==> !ChildQualifies(parse, root, i, x, y)
    requires Find(parse, root.children[j], x, y) == Some([])
    ensures Find(parse, root, x, y) == Some([j])
  {
    FindPicksFirstTruthyChild(parse, root, x, y);
    var r := Find(parse, root, x, y).value;
    assert r != [];
    assert r[0] == j;
    assert r == [j] + Find(parse, root.children[j], x, y).value;
    assert [j] + [] == [j];
    assert Find(parse, root, x, y) == Some(r);
  }

  lemma RootLocator(root: Element)
    ensures Render(Steps(root, [])) == "/" + root.tag
  {
    assert Segments(Steps(root, [])) == [root.tag];
  }

  lemma ChildLocator(root: Element, j: nat)
    requires j < |root.children|
    ensures Render(Steps(root, [j])) == "/" + root.tag + "/" + SegmentText(StepAt(root, j))
  {
    assert ChildSteps(root, [j]) == [StepAt(root, j)];
    var segs := Segments(Steps(root, [j]));
    assert segs == [root.tag, SegmentText(StepAt(root, j))];
    assert Join(segs, "/") == root.tag + "/" + Join(segs[1..], "/");
  }

  lemma LeafTapFindsRoot(parse: BoundsParser, screen: Rect, first: Rect, second: Rect, x: int, y: int)
    requires parse(FormatBounds(screen)) == Some(screen) && Contains(screen, x, y)
    ensures Find(parse, TwoNodeScreen(screen, first, second, []), x, y) == Some([])
  {
    var root := TwoNodeScreen(screen, first, second, []);
    BoundedInside(parse, "hierarchy", screen, root.children, x, y);
    LeafChildNeverQualifies(parse, root, 0, x, y);
    LeafChildNeverQualifies(parse, root, 1, x, y);
    FindFallsBackToRoot(parse, root, x, y);
  }

  /** When both nodes are leaves, any tap on the screen, inside the first node, the second,
      both or neither, is reported as the root: a leaf is falsy, so the search never settles
      on it. The root's locator is `/hierarchy` (see `TwoNodeLocators`). */
  lemma LeafTapReportsRoot(screen: Rect, first: Rect, second: Rect, x: int, y: int)
    requires Contains(screen, x, y)
    ensures Target(Repaired, TwoNodeScreen(screen, first, second, []), x, y) == Some([])
  {
    RepairedRoundTrip(screen);
    LeafTapFindsRoot(ParseBoundsRepaired, screen, first, second, x, y);
    TargetOfFind(Repaired, TwoNodeScreen(screen, first, second, []), x, y, []);
  }

  lemma InnerTapFindsSecondNode(parse: BoundsParser, screen: Rect, first: Rect, second: Rect,
                                inner: seq<Element>, x: int, y: int)
    requires parse(FormatBounds(screen)) == Some(screen) && parse(FormatBounds(second)) == Some(second)
    requires Contains(screen, x, y) && Contains(second, x, y)
    requires inner != [] && AllLeaves(inner)
    ensures Find(parse, TwoNodeScreen(screen, first, second, inner), x, y) == Some([1])
  {
    var root := TwoNodeScreen(screen, first, second, inner);
    var node := root.children[1];
    BoundedInside(parse, "hierarchy", screen, root.children, x, y);
    BoundedInside(parse, "node", second, inner, x, y);
    forall k | 0 <= k < |node.children|
      ensures !ChildQualifies(parse, node, k, x, y)
    {
      LeafChildNeverQualifies(parse, node, k, x, y);
    }
    FindFallsBackToRoot(parse, node, x, y);
    LeafChildNeverQualifies(parse, root, 0, x, y);
    FindIsChild(parse, root, 1, x, y);
  }

  /** A tap inside the second node when that node has children, all of them leaves: the
      node is truthy and no leaf below it can be the result, so it is the target, whatever
      the leaves' bounds and whether or not the tap is also inside the first node. Its
      locator is `/hierarchy/node[2]` (see `TwoNodeLocators`). */
  lemma InnerTapReportsSecondNode(screen: Rect, first: Rect, second: Rect, inner: seq<Element>, x: int, y: int)
    requires Contains(screen, x, y) && Contains(second, x, y)
    requires inner != [] && AllLeaves(inner)
    ensures Target(Repaired, TwoNodeScreen(screen, first, second, inner), x, y) == Some([1])
  {
    RepairedRoundTrip(screen);
    RepairedRoundTrip(second);
    InnerTapFindsSecondNode(ParseBoundsRepaired, screen, first, second, inner, x, y);
    TargetOfFind(Repaired, TwoNodeScreen(screen, first, second, inner), x, y, [1]);
  }

  /** The locators of the two-node screen: the root is `/hierarchy`, and the second of the
      two `node` siblings is `/hierarchy/node[2]`. */
  lemma TwoNodeLocators(screen: Rect, first: Rect, second: Rect, inner: seq<Element>)
    ensures var root := TwoNodeScreen(screen, first, second, inner);
      Render(Steps(root, [])) == "/hierarchy" && Render(Steps(root, [1])) == "/hierarchy/node[2]"
  {
    var root := TwoNodeScreen(screen, first, second, inner);
    RootLocator(root);
    ChildLocator(root, 1);
    SecondNodeSegment(root);
  }

  lemma SecondNodeSegment(root: Element)
    requires |root.children| == 2 && root.children[0].tag == root.children[1].tag == "node"
    ensures SegmentText(StepAt(root, 1)) == "node[2]"
  {
    var kids := root.children;
    assert CountTag(kids, "node", 1) == 1;
    assert SameTagCount(kids, "node") == 2;
    assert NatToString(2) == "2";
  }

  /** As shipped, the same tap finds nothing at all: the root's bounds are rejected. */
  lemma ShippedTapFindsNothing(screen: Rect, first: Rect, second: Rect, inner: seq<Element>, x: int, y: int)
    ensures Target(AsShipped, TwoNodeScreen(screen, first, second, inner), x, y).None?
  {
    ShippedNeverResolves(TwoNodeScreen(screen, first, second, inner), screen, x, y);
  }
}
