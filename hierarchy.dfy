/** The parsed UI hierarchy and `find_element_by_coords` (utils.py): the element tree,
    positions in it, the `bounds` attribute parser and the recursive search for the element
    under a screen point. */
module Hierarchy {
  import opened Wrappers
  import opened Text

  /** An `xml.etree` element: its tag, its string attributes and its children in document
      order. The tree owns its children; a parent is reached through a position (below). */
  datatype Element = Element(tag: string, attrs: map<string, string>, children: seq<Element>)

  /** `element.get(key)`. */
  function Get(e: Element, key: string): Option<string>
  {
    if key in e.attrs then Some(e.attrs[key]) else None
  }

  /** The truth value Python gives an `xml.etree` element: true exactly when it has
      children (`len(element) != 0`), whatever its attributes. */
  predicate Truthy(e: Element)
  {
    |e.children| > 0
  }

  // ---------------------------------------------------------------------------------------
  // Positions: a node is named by the child indices leading to it from the root, so the
  // parent of the node at `p` is the node at `p[..|p| - 1]`.
  // ---------------------------------------------------------------------------------------

  predicate ValidPath(e: Element, p: seq<nat>)
    decreases p
  {
    p == [] || (p[0] < |e.children| && ValidPath(e.children[p[0]], p[1..]))
  }

  function At(e: Element, p: seq<nat>): Element
    requires ValidPath(e, p)
    decreases p
  {
    if p == [] then e else At(e.children[p[0]], p[1..])
  }

  /** Every prefix of a position is a position, and the node one level deeper is a child of
      the node at the prefix: the parent links of the source, recovered from positions. */
  lemma {:induction false} AtSnoc(e: Element, p: seq<nat>, m: nat)
    requires ValidPath(e, p) && m < |p|
    ensures ValidPath(e, p[..m]) && ValidPath(e, p[..m + 1])
    ensures p[m] < |At(e, p[..m]).children|
    ensures At(e, p[..m + 1]) == At(e, p[..m]).children[p[m]]
    decreases m
  {
    if m == 0 {
      assert p[..1] == [p[0]] && [p[0]][1..] == [];
    } else {
      AtSnoc(e.children[p[0]], p[1..], m - 1);
      assert p[..m] == [p[0]] + p[1..][..m - 1];
      assert p[..m + 1] == [p[0]] + p[1..][..m];
    }
  }

  /** Walking to the prefix `p[..m]` and then along the rest of `p` ends at the same node. */
  lemma {:induction false} AtSplit(e: Element, p: seq<nat>, m: nat)
    requires ValidPath(e, p) && m <= |p|
    ensures ValidPath(e, p[..m]) && ValidPath(At(e, p[..m]), p[m..])
    ensures At(At(e, p[..m]), p[m..]) == At(e, p)
    decreases m
  {
    if m == 0 {
      assert p[..0] == [] && p[0..] == p;
    } else {
      AtSplit(e.children[p[0]], p[1..], m - 1);
      assert p[..m] == [p[0]] + p[1..][..m - 1];
      assert p[m..] == p[1..][m - 1..];
    }
  }

  /** Descending into child `i` and then along `q` is the position `[i] + q`. */
  lemma AtCons(e: Element, i: nat, q: seq<nat>)
    requires i < |e.children| && ValidPath(e.children[i], q)
    ensures ValidPath(e, [i] + q) && At(e, [i] + q) == At(e.children[i], q)
  {
    assert ([i] + q)[0] == i && ([i] + q)[1..] == q;
  }

  // ---------------------------------------------------------------------------------------
  // Bounds
  // ---------------------------------------------------------------------------------------

  datatype Rect = Rect(x1: int, y1: int, x2: int, y2: int)

  /** Containment is inclusive on all four edges. */
  predicate Contains(r: Rect, x: int, y: int)
  {
    r.x1 <= x <= r.x2 && r.y1 <= y <= r.y2
  }

  /** `bounds.replace('[', '').replace(']', '')`. */
  function StripBrackets(s: string): string
  {
    Delete(Delete(s, '['), ']')
  }

  /** `x1, y1, x2, y2 = map(int, fields)`: exactly four fields, each an integer literal;
      `None` is the `ValueError` of a wrong count or a bad literal. */
  function FieldsToRect(fields: seq<string>): (r: Option<Rect>)
    ensures r.Some? <==> |fields| == 4 && forall k :: 0 <= k < 4 ==> ParseInt(fields[k]).Some?
  {
    if |fields| != 4 then None
    else match (ParseInt(fields[0]), ParseInt(fields[1]), ParseInt(fields[2]), ParseInt(fields[3]))
      case (Some(x1), Some(y1), Some(x2), Some(y2)) => Some(Rect(x1, y1, x2, y2))
      case _ => None
  }

  /** The bounds parser as written: delete every bracket, then split on commas. */
  function ParseBounds(s: string): Option<Rect>
  {
    FieldsToRect(Split(StripBrackets(s), ','))
  }

  /** The shape uiautomator2 gives every `bounds` attribute: `[x1,y1][x2,y2]`. */
  function FormatBounds(r: Rect): string
  {
    "[" + IntToString(r.x1) + "," + IntToString(r.y1) + "][" + IntToString(r.x2) + "," + IntToString(r.y2) + "]"
  }

  lemma DeleteKeepsCount(s: string, c: char, d: char)
    requires c != d
    ensures multiset(Delete(s, c))[d] == multiset(s)[d]
    decreases |s|
  {
    if s != [] {
      assert s == [s[0]] + s[1..];
      DeleteKeepsCount(s[1..], c, d);
    }
  }

  /** The parser as written rejects every `[x1,y1][x2,y2]` string: once the brackets are
      gone, `y1` and `x2` run together and only three comma-separated fields remain. */
  lemma CanonicalBoundsRejected(a: string, b: string, c: string, d: string)
    requires ',' !in a && ',' !in b && ',' !in c && ',' !in d
    ensures |Split(StripBrackets("[" + a + "," + b + "][" + c + "," + d + "]"), ',')| == 3
    ensures ParseBounds("[" + a + "," + b + "][" + c + "," + d + "]") == None
  {
    var s := "[" + a + "," + b + "][" + c + "," + d + "]";
    assert multiset(s)[','] == 2 by {
      assert multiset(a)[','] == 0 && multiset(b)[','] == 0;
      assert multiset(c)[','] == 0 && multiset(d)[','] == 0;
    }
    DeleteKeepsCount(s, '[', ',');
    DeleteKeepsCount(Delete(s, '['), ']', ',');
  }

  /** In particular no bounds attribute uiautomator2 produces is ever accepted. */
  lemma FormattedBoundsRejected(r: Rect)
    ensures ParseBounds(FormatBounds(r)) == None
  {
    CanonicalBoundsRejected(IntToString(r.x1), IntToString(r.y1), IntToString(r.x2), IntToString(r.y2));
  }

  /** `s.replace('][', ',')`: the step that makes the two corner pairs four fields. */
  function MergePairs(s: string): string
    decreases |s|
  {
    if |s| >= 2 && s[0] == ']' && s[1] == '[' then "," + MergePairs(s[2..])
    else if s == [] then []
    else [s[0]] + MergePairs(s[1..])
  }

  /** The bounds parser as evidently intended: join the corner pairs with a comma first,
      then delete the outer brackets and split on commas. */
  function ParseBoundsRepaired(s: string): Option<Rect>
  {
    FieldsToRect(Split(StripBrackets(MergePairs(s)), ','))
  }

  lemma {:induction false} MergePairsSkips(u: string, rest: string)
    requires ']' !in u
    ensures MergePairs(u + rest) == u + MergePairs(rest)
    decreases |u|
  {
    if u != [] {
      assert (u + rest)[0] == u[0] && (u + rest)[1..] == u[1..] + rest;
      assert ']' !in u[1..];
      MergePairsSkips(u[1..], rest);
      assert [u[0]] + u[1..] == u;
    } else {
      assert u + rest == rest;
    }
  }

  lemma NoBracketsInInt(i: int)
    ensures '[' !in IntToString(i) && ']' !in IntToString(i) && ',' !in IntToString(i)
  {
    var s := IntToString(i);
    forall k | 0 <= k < |s| ensures s[k] != '[' && s[k] != ']' && s[k] != ','
    {
    }
  }

  lemma MergeAtPair(tail: string)
    ensures MergePairs("][" + tail) == "," + MergePairs(tail)
  {
    var s := "][" + tail;
    assert s[0] == ']' && s[1] == '[' && s[2..] == tail;
  }

  lemma FormattedShape(p1: string, p2: string)
    ensures "[" + p1 + "][" + p2 + "]" == ("[" + p1) + ("][" + (p2 + "]"))
    ensures ("[" + p1) + ("," + (p2 + "]")) == "[" + (p1 + "," + p2) + "]"
  {
  }

  /** Only the `][` between the corner pairs is touched. */
  lemma MergeFormatted(p1: string, p2: string)
    requires ']' !in p1 && ']' !in p2
    ensures MergePairs("[" + p1 + "][" + p2 + "]") == "[" + (p1 + "," + p2) + "]"
  {
    FormattedShape(p1, p2);
    MergePairsSkips("[" + p1, "][" + (p2 + "]"));
    MergeAtPair(p2 + "]");
    MergePairsSkips(p2, "]");
    assert MergePairs("]") == "]";
  }

  lemma DeleteOneChar(c: char, d: char)
    ensures Delete([c], d) == if c == d then [] else [c]
  {
    assert [c][1..] == [];
  }

  /** Deleting the brackets around a bracket-free string leaves the string. */
  lemma StripOuterBrackets(j: string)
    requires '[' !in j && ']' !in j
    ensures StripBrackets("[" + j + "]") == j
  {
    DeleteConcat("[" + j, "]", '[');
    DeleteConcat("[", j, '[');
    DeleteOneChar('[', '[');
    DeleteOneChar(']', '[');
    DeleteAbsent(j, '[');
    assert [] + j == j;
    DeleteConcat(j, "]", ']');
    DeleteAbsent(j, ']');
    DeleteOneChar(']', ']');
    assert j + [] == j;
  }

  lemma FormatBoundsShape(r: Rect)
    ensures FormatBounds(r) ==
      "[" + (IntToString(r.x1) + "," + IntToString(r.y1)) + "][" + (IntToString(r.x2) + "," + IntToString(r.y2)) + "]"
  {
  }

  lemma JoinFour(a: string, b: string, c: string, d: string)
    ensures Join([a, b, c, d], ",") == (a + "," + b) + "," + (c + "," + d)
  {
    assert [a, b, c, d][1..] == [b, c, d] && [b, c, d][1..] == [c, d] && [c, d][1..] == [d];
    assert Join([c, d], ",") == c + "," + d;
    assert Join([b, c, d], ",") == b + "," + (c + "," + d);
    assert Join([a, b, c, d], ",") == a + "," + (b + "," + (c + "," + d));
  }

  /** A bracket-free pair text with one separating comma. */
  lemma PairText(a: string, b: string)
    requires '[' !in a && ']' !in a && '[' !in b && ']' !in b
    ensures '[' !in a + "," + b && ']' !in a + "," + b
  {
    NotInConcat('[', a, ","); NotInConcat('[', a + ",", b);
    NotInConcat(']', a, ","); NotInConcat(']', a + ",", b);
  }

  /** Merging the pairs and deleting the brackets leaves the two pair texts joined by a comma. */
  lemma RepairedText(p1: string, p2: string)
    requires '[' !in p1 && ']' !in p1 && '[' !in p2 && ']' !in p2
    ensures StripBrackets(MergePairs("[" + p1 + "][" + p2 + "]")) == p1 + "," + p2
  {
    MergeFormatted(p1, p2);
    PairText(p1, p2);
    StripOuterBrackets(p1 + "," + p2);
  }

  lemma SplitFour(a: string, b: string, c: string, d: string)
    requires ',' !in a && ',' !in b && ',' !in c && ',' !in d
    ensures Split((a + "," + b) + "," + (c + "," + d), ',') == [a, b, c, d]
  {
    JoinFour(a, b, c, d);
    SplitJoin([a, b, c, d], ',');
  }

  /** After the repair, four bracket- and comma-free fields written as two corner pairs are
      split back into those four fields. */
  lemma RepairedFieldsOf(a: string, b: string, c: string, d: string)
    requires '[' !in a && ']' !in a && ',' !in a && '[' !in b && ']' !in b && ',' !in b
    requires '[' !in c && ']' !in c && ',' !in c && '[' !in d && ']' !in d && ',' !in d
    ensures Split(StripBrackets(MergePairs("[" + (a + "," + b) + "][" + (c + "," + d) + "]")), ',') == [a, b, c, d]
  {
    PairText(a, b);
    PairText(c, d);
    RepairedText(a + "," + b, c + "," + d);
    SplitFour(a, b, c, d);
  }

  lemma RepairedFields(r: Rect)
    ensures Split(StripBrackets(MergePairs(FormatBounds(r))), ',') ==
      [IntToString(r.x1), IntToString(r.y1), IntToString(r.x2), IntToString(r.y2)]
  {
    NoBracketsInInt(r.x1); NoBracketsInInt(r.y1); NoBracketsInInt(r.x2); NoBracketsInInt(r.y2);
    FormatBoundsShape(r);
    RepairedFieldsOf(IntToString(r.x1), IntToString(r.y1), IntToString(r.x2), IntToString(r.y2));
  }

  /** The repaired parser reads back exactly the rectangle uiautomator2 wrote. */
  lemma RepairedRoundTrip(r: Rect)
    ensures ParseBoundsRepaired(FormatBounds(r)) == Some(r)
  {
    RepairedFields(r);
    IntToStringRoundTrip(r.x1); IntToStringRoundTrip(r.y1);
    IntToStringRoundTrip(r.x2); IntToStringRoundTrip(r.y2);
  }

  /** A bounds parser: `None` when the attribute is rejected. */
  type BoundsParser = string -> Option<Rect>

  /** Which parser and which element API a run uses. `AsShipped` is the code as written:
      the bracket-deleting parser, and `xml.etree` elements, which have no `getparent`, so
      generating an XPath raises. `Repaired` is the evidently intended behaviour: the
      repaired parser, and elements whose parent is known (the positions above). */
  datatype Build = AsShipped | Repaired

  function ParserOf(b: Build): BoundsParser
  {
    match b
    case AsShipped => ParseBounds
    case Repaired => ParseBoundsRepaired
  }

  // ---------------------------------------------------------------------------------------
  // find_element_by_coords
  // ---------------------------------------------------------------------------------------

  // The search takes the bounds parser as a parameter; `ParserOf` gives the parser of each
  // build.

  /** The element's own test: a non-empty `bounds` attribute that parses and contains the
      point. */
  predicate Inside(parse: BoundsParser, e: Element, x: int, y: int)
  {
    "bounds" in e.attrs && e.attrs["bounds"] != "" &&
    parse(e.attrs["bounds"]).Some? && Contains(parse(e.attrs["bounds"]).value, x, y)
  }

  /** Every node from `e` down along `p` passes its own test. */
  predicate InsideAlong(parse: BoundsParser, e: Element, p: seq<nat>, x: int, y: int)
    decreases p
  {
    Inside(parse, e, x, y) &&
    (p == [] || (p[0] < |e.children| && InsideAlong(parse, e.children[p[0]], p[1..], x, y)))
  }

  /** `find_element_by_coords(e, x, y)`, answering with the position of the element found
      below `e`. */
  function Find(parse: BoundsParser, e: Element, x: int, y: int): (r: Option<seq<nat>>)
    ensures r.Some? <==> Inside(parse, e, x, y)
    ensures r.Some? ==> ValidPath(e, r.value) && InsideAlong(parse, e, r.value, x, y)
    ensures r.Some? && r.value != [] ==> Truthy(At(e, r.value))
    decreases e, 1
  {
    if "bounds" !in e.attrs || e.attrs["bounds"] == "" then None
    else match parse(e.attrs["bounds"])
      case None => None
      case Some(rect) =>
        if !Contains(rect, x, y) then None
        else match FirstTruthyChild(parse, e, 0, x, y)
          case Some(p) => Some(p)
          case None => Some([])
  }

  /** The `for child in element` loop from child `i` on: the first child whose own search
      gives a truthy element. */
  function FirstTruthyChild(parse: BoundsParser, e: Element, i: nat, x: int, y: int): (r: Option<seq<nat>>)
    requires i <= |e.children|
    ensures r.Some? ==> |r.value| >= 1 && i <= r.value[0] < |e.children|
    ensures r.Some? ==> ValidPath(e, r.value) && Truthy(At(e, r.value))
    ensures r.Some? ==> InsideAlong(parse, e.children[r.value[0]], r.value[1..], x, y)
    decreases e, 0, |e.children| - i
  {
    if i == |e.children| then None
    else match Find(parse, e.children[i], x, y)
      case Some(q) =>
        if Truthy(At(e.children[i], q)) then
          AtCons(e, i, q);
          assert ([i] + q)[1..] == q;
          Some([i] + q)
        else FirstTruthyChild(parse, e, i + 1, x, y)
      case None => FirstTruthyChild(parse, e, i + 1, x, y)
  }

  /** Child `j` is a candidate: its own search succeeds with a truthy element. */
  predicate ChildQualifies(parse: BoundsParser, e: Element, j: nat, x: int, y: int)
  {
    j < |e.children| &&
    var q := Find(parse, e.children[j], x, y);
    q.Some? && Truthy(At(e.children[j], q.value))
  }

  /** One turn of the loop: take child `i` if it qualifies, otherwise go on. */
  lemma FirstTruthyChildStep(parse: BoundsParser, e: Element, i: nat, x: int, y: int)
    requires i < |e.children|
    ensures FirstTruthyChild(parse, e, i, x, y) ==
      if ChildQualifies(parse, e, i, x, y) then Some([i] + Find(parse, e.children[i], x, y).value)
      else FirstTruthyChild(parse, e, i + 1, x, y)
  {
  }

  lemma {:induction false} FirstTruthyChildNone(parse: BoundsParser, e: Element, i: nat, x: int, y: int)
    requires i <= |e.children|
    ensures FirstTruthyChild(parse, e, i, x, y).None? <==>
      forall j :: i <= j < |e.children| ==> !ChildQualifies(parse, e, j, x, y)
    decreases |e.children| - i
  {
    if i < |e.children| {
      FirstTruthyChildNone(parse, e, i + 1, x, y);
      FirstTruthyChildStep(parse, e, i, x, y);
    }
  }

  lemma {:induction false} FirstTruthyChildSome(parse: BoundsParser, e: Element, i: nat, x: int, y: int)
    requires i <= |e.children| && FirstTruthyChild(parse, e, i, x, y).Some?
    ensures var k := FirstTruthyChild(parse, e, i, x, y).value[0];
      ChildQualifies(parse, e, k, x, y) &&
      FirstTruthyChild(parse, e, i, x, y).value == [k] + Find(parse, e.children[k], x, y).value &&
      forall j :: i <= j < k ==> !ChildQualifies(parse, e, j, x, y)
    decreases |e.children| - i
  {
    FirstTruthyChildStep(parse, e, i, x, y);
    if !ChildQualifies(parse, e, i, x, y) {
      FirstTruthyChildSome(parse, e, i + 1, x, y);
    }
  }

  /** The search order: when the point is inside `e`, the result is the first child in
      document order whose search yields a truthy element, with that child's result below
      it, and `e` itself exactly when no child qualifies. Matching leaves never qualify. */
  lemma FindPicksFirstTruthyChild(parse: BoundsParser, e: Element, x: int, y: int)
    requires Inside(parse, e, x, y)
    ensures var r := Find(parse, e, x, y).value;
      (r == [] <==> forall j :: 0 <= j < |e.children| ==> !ChildQualifies(parse, e, j, x, y)) &&
      (r != [] ==>
        ChildQualifies(parse, e, r[0], x, y) &&
        r == [r[0]] + Find(parse, e.children[r[0]], x, y).value &&
        forall j :: 0 <= j < r[0] ==> !ChildQualifies(parse, e, j, x, y))
  {
    FirstTruthyChildNone(parse, e, 0, x, y);
    if FirstTruthyChild(parse, e, 0, x, y).Some? {
      FirstTruthyChildSome(parse, e, 0, x, y);
    }
  }

  /** A leaf never qualifies as a child result, even when the point is inside it. */
  lemma LeafChildNeverQualifies(parse: BoundsParser, e: Element, j: nat, x: int, y: int)
    requires j < |e.children| && e.children[j].children == []
    ensures !ChildQualifies(parse, e, j, x, y)
  {
  }

  /** An element with no (or an empty) `bounds` attribute yields nothing whatever its
      children are: they are never looked at. */
  lemma MissingBoundsIgnoresChildren(parse: BoundsParser, tag: string, attrs: map<string, string>,
                                     kids: seq<Element>, others: seq<Element>, x: int, y: int)
    requires "bounds" !in attrs || attrs["bounds"] == ""
    ensures Find(parse, Element(tag, attrs, kids), x, y) == Find(parse, Element(tag, attrs, others), x, y) == None
  {
  }

  /** The same holds for bounds the parser rejects. */
  lemma UnparsableBoundsIgnoresChildren(parse: BoundsParser, tag: string, attrs: map<string, string>,
                                        kids: seq<Element>, others: seq<Element>, x: int, y: int)
    requires "bounds" in attrs && parse(attrs["bounds"]).None?
    ensures Find(parse, Element(tag, attrs, kids), x, y) == Find(parse, Element(tag, attrs, others), x, y) == None
  {
  }

  /** As shipped, a hierarchy whose root carries uiautomator2's bounds never resolves. */
  lemma ShippedNeverResolves(root: Element, r: Rect, x: int, y: int)
    requires Get(root, "bounds") == Some(FormatBounds(r))
    ensures Find(ParseBounds, root, x, y) == None
  {
    FormattedBoundsRejected(r);
  }
}
