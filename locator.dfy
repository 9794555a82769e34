/** `generate_xpath` (utils.py): the `/tag/tag[i]/...` locator of an element, built by
    walking from the element up to the root, and what that locator means: following it from
    the root selects exactly that element. */
module Locator {
  import opened Wrappers
  import opened Text
  import opened Hierarchy

  // ---------------------------------------------------------------------------------------
  // Same-tag siblings
  // ---------------------------------------------------------------------------------------

  /** How many of the first `n` children carry tag `t`. */
  function CountTag(kids: seq<Element>, t: string, n: nat): (c: nat)
    requires n <= |kids|
    ensures c <= n
    decreases n
  {
    if n == 0 then 0 else CountTag(kids, t, n - 1) + (if kids[n - 1].tag == t then 1 else 0)
  }

  /** `len([s for s in parent if s.tag == tag])`. */
  function SameTagCount(kids: seq<Element>, t: string): nat
  {
    CountTag(kids, t, |kids|)
  }

  /** `siblings.index(current) + 1` for the child at `j`: one more than the number of
      earlier children with its tag. Elements are compared by identity, so the child's own
      position decides, never an equal-looking sibling. */
  function SameTagIndex(kids: seq<Element>, j: nat): nat
    requires j < |kids|
  {
    CountTag(kids, kids[j].tag, j) + 1
  }

  lemma {:induction false} CountTagMonotone(kids: seq<Element>, t: string, n: nat, m: nat)
    requires n <= m <= |kids|
    ensures CountTag(kids, t, n) <= CountTag(kids, t, m)
    decreases m - n
  {
    if n < m {
      CountTagMonotone(kids, t, n, m - 1);
    }
  }

  lemma CountTagStep(kids: seq<Element>, t: string, j: nat)
    requires j < |kids| && kids[j].tag == t
    ensures CountTag(kids, t, j + 1) == CountTag(kids, t, j) + 1
  {
  }

  /** A later child with the same tag has counted the earlier one. */
  lemma CountTagStrict(kids: seq<Element>, t: string, j: nat, k: nat)
    requires j < k <= |kids| && kids[j].tag == t
    ensures CountTag(kids, t, j) + 1 <= CountTag(kids, t, k)
  {
    CountTagStep(kids, t, j);
    CountTagMonotone(kids, t, j + 1, k);
  }

  // ---------------------------------------------------------------------------------------
  // Locators
  // ---------------------------------------------------------------------------------------

  /** One segment of a locator: a tag, with a 1-based same-tag position when needed. */
  datatype Step = Step(tag: string, index: Option<nat>)

  /** The segment of the child at `j` of `parent`. */
  function StepAt(parent: Element, j: nat): Step
    requires j < |parent.children|
  {
    var t := parent.children[j].tag;
    if SameTagCount(parent.children, t) > 1 then Step(t, Some(SameTagIndex(parent.children, j)))
    else Step(t, None)
  }

  /** The segments of the nodes strictly below `e` along `p`. */
  function ChildSteps(e: Element, p: seq<nat>): (steps: seq<Step>)
    requires ValidPath(e, p)
    ensures |steps| == |p|
    decreases p
  {
    if p == [] then [] else [StepAt(e, p[0])] + ChildSteps(e.children[p[0]], p[1..])
  }

  /** The segments of every node from the root down to the node at `p`; the root's is its
      bare tag. */
  function Steps(root: Element, p: seq<nat>): (steps: seq<Step>)
    requires ValidPath(root, p)
    ensures |steps| == |p| + 1
  {
    [Step(root.tag, None)] + ChildSteps(root, p)
  }

  /** `tag` or `f"{tag}[{index}]"`. */
  function SegmentText(s: Step): string
  {
    match s.index
    case None => s.tag
    case Some(i) => s.tag + "[" + NatToString(i) + "]"
  }

  function Segments(steps: seq<Step>): (segs: seq<string>)
    ensures |segs| == |steps|
    ensures forall k :: 0 <= k < |steps| ==> segs[k] == SegmentText(steps[k])
  {
    if steps == [] then [] else [SegmentText(steps[0])] + Segments(steps[1..])
  }

  /** `'/' + '/'.join(xpath_parts)`. */
  function Render(steps: seq<Step>): string
  {
    "/" + Join(Segments(steps), "/")
  }

  /** `generate_xpath(element)` for the element at `p`: starting at the element, each turn
      of the loop puts the current node's segment in front and moves to its parent; the
      root's segment is its bare tag and ends the walk. */
  method GenerateXPath(root: Element, p: seq<nat>) returns (xpath: string)
    requires ValidPath(root, p)
    ensures xpath == Render(Steps(root, p))
  {
    var parts: seq<string> := [];
    var depth: nat := |p|;
    AtSplit(root, p, depth);
    while true
      invariant depth <= |p| && ValidPath(root, p[..depth])
      invariant ValidPath(At(root, p[..depth]), p[depth..])
      invariant parts == Segments(ChildSteps(At(root, p[..depth]), p[depth..]))
      decreases depth
    {
      var current := At(root, p[..depth]);
      var tag := current.tag;
      if depth == 0 {
        parts := [tag] + parts;
        break;
      }
      AtSnoc(root, p, depth - 1);
      var parent := At(root, p[..depth - 1]);
      var j := p[depth - 1];
      assert current == parent.children[j];
      assert p[depth - 1..] == [j] + p[depth..];
      AtSplit(root, p, depth - 1);
      if SameTagCount(parent.children, tag) > 1 {
        var index := SameTagIndex(parent.children, j);
        parts := [tag + "[" + NatToString(index) + "]"] + parts;
      } else {
        parts := [tag] + parts;
      }
      depth := depth - 1;
    }
    assert p[0..] == p && p[..0] == [];
    xpath := "/" + Join(parts, "/");
  }

  // ---------------------------------------------------------------------------------------
  // What a locator selects
  // ---------------------------------------------------------------------------------------

  /** XPath's reading of the first segment against the document element. */
  predicate RootMatches(root: Element, s: Step)
  {
    s.tag == root.tag && (s.index.None? || s.index == Some(1))
  }

  /** XPath's reading of a later segment on the child axis: `tag` matches every child with
      that tag, `tag[i]` only the i-th of them in document order. */
  predicate ChildMatches(parent: Element, j: nat, s: Step)
  {
    j < |parent.children| && parent.children[j].tag == s.tag &&
    (s.index.None? || s.index == Some(SameTagIndex(parent.children, j)))
  }

  predicate SelectsBelow(e: Element, steps: seq<Step>, q: seq<nat>)
    decreases steps
  {
    if steps == [] then q == []
    else |q| >= 1 && ChildMatches(e, q[0], steps[0]) && SelectsBelow(e.children[q[0]], steps[1..], q[1..])
  }

  /** Following `steps` from the root reaches the node at `q`. */
  predicate Selects(root: Element, steps: seq<Step>, q: seq<nat>)
  {
    |steps| >= 1 && RootMatches(root, steps[0]) && SelectsBelow(root, steps[1..], q)
  }

  /** The index rule: a child gets an index exactly when more than one child of its parent
      shares its tag, and the index is its 1-based rank among them. */
  lemma IndexRule(parent: Element, j: nat)
    requires j < |parent.children|
    ensures var kids := parent.children; var s := StepAt(parent, j);
      s.tag == kids[j].tag &&
      (s.index.Some? <==> SameTagCount(kids, kids[j].tag) > 1) &&
      (s.index.Some? ==>
        1 <= s.index.value <= SameTagCount(kids, kids[j].tag) &&
        s.index.value - 1 == CountTag(kids, kids[j].tag, j))
  {
    CountTagMonotone(parent.children, parent.children[j].tag, j + 1, |parent.children|);
  }

  /** A segment picks out the one child it was made for. */
  lemma StepDeterminesChild(parent: Element, j: nat, k: nat)
    requires j < |parent.children| && ChildMatches(parent, k, StepAt(parent, j))
    ensures k == j
  {
    var kids := parent.children;
    var t := kids[j].tag;
    if j < k {
      CountTagStrict(kids, t, j, k);
      CountTagStrict(kids, t, k, |kids|);
    } else if k < j {
      CountTagStrict(kids, t, k, j);
      CountTagStrict(kids, t, j, |kids|);
    }
  }

  lemma {:induction false} SelectsBelowExactly(e: Element, p: seq<nat>, q: seq<nat>)
    requires ValidPath(e, p)
    ensures SelectsBelow(e, ChildSteps(e, p), q) <==> q == p
    decreases p
  {
    if p != [] {
      var steps := ChildSteps(e, p);
      assert steps[0] == StepAt(e, p[0]) && steps[1..] == ChildSteps(e.children[p[0]], p[1..]);
      if SelectsBelow(e, steps, q) {
        SelectsBelowExactly(e.children[p[0]], p[1..], q[1..]);
        StepDeterminesChild(e, p[0], q[0]);
        assert q == [q[0]] + q[1..];
      }
      if q == p {
        assert ChildMatches(e, p[0], StepAt(e, p[0]));
        SelectsBelowExactly(e.children[p[0]], p[1..], q[1..]);
      }
    }
  }

  /** The locator is unique: following it from the root selects the element it was made
      for and no other node. */
  lemma SelectsExactly(root: Element, p: seq<nat>, q: seq<nat>)
    requires ValidPath(root, p)
    ensures Selects(root, Steps(root, p), q) <==> q == p
  {
    var steps := Steps(root, p);
    assert steps[1..] == ChildSteps(root, p);
    SelectsBelowExactly(root, p, q);
  }

  /** Different nodes of one tree get different segment lists. */
  lemma DistinctNodesDistinctSteps(root: Element, p: seq<nat>, q: seq<nat>)
    requires ValidPath(root, p) && ValidPath(root, q) && p != q
    ensures Steps(root, p) != Steps(root, q)
  {
    SelectsExactly(root, p, p);
    SelectsExactly(root, q, p);
  }

  // ---------------------------------------------------------------------------------------
  // Reading a locator string back
  // ---------------------------------------------------------------------------------------

  /** XML names never contain `/`, `[` or `]`. */
  predicate TagOk(t: string)
  {
    '/' !in t && '[' !in t && ']' !in t
  }

  predicate WellFormedTags(e: Element)
    decreases e
  {
    TagOk(e.tag) && forall k :: 0 <= k < |e.children| ==> WellFormedTags(e.children[k])
  }

  function IndexOf(s: string, c: char): (i: nat)
    requires c in s
    ensures i < |s| && s[i] == c
    ensures forall k :: 0 <= k < i ==> s[k] != c
    decreases |s|
  {
    if s[0] == c then 0
    else
      assert c in s[1..] by { assert s == [s[0]] + s[1..]; }
      IndexOf(s[1..], c) + 1
  }

  /** A segment read back: a tag, optionally followed by `[digits]`. */
  function ParseSegment(s: string): Option<Step>
  {
    if '[' !in s then Some(Step(s, None))
    else
      var i := IndexOf(s, '[');
      var inner := s[i + 1..];
      if |inner| >= 2 && inner[|inner| - 1] == ']' && AllDigits(inner[..|inner| - 1]) then
        Some(Step(s[..i], Some(DigitsValue(inner[..|inner| - 1]))))
      else None
  }

  function ParseSegments(segs: seq<string>): (r: Option<seq<Step>>)
    ensures r.Some? ==> |r.value| == |segs|
  {
    if segs == [] then Some([])
    else match (ParseSegment(segs[0]), ParseSegments(segs[1..]))
      case (Some(s), Some(rest)) => Some([s] + rest)
      case _ => None
  }

  /** A locator string read back into its segments. */
  function ParseXPath(s: string): Option<seq<Step>>
  {
    if |s| >= 1 && s[0] == '/' then ParseSegments(Split(s[1..], '/')) else None
  }

  lemma SegmentTextShape(s: Step)
    requires TagOk(s.tag) && s.index.Some?
    ensures var text := SegmentText(s); var d := NatToString(s.index.value);
      |text| == |s.tag| + |d| + 2 && text[..|s.tag|] == s.tag && text[|s.tag|] == '[' &&
      text[|s.tag| + 1..] == d + "]"
  {
  }

  lemma ParseIndexedSegment(s: Step)
    requires TagOk(s.tag) && s.index.Some?
    ensures ParseSegment(SegmentText(s)) == Some(s)
  {
    var text, d := SegmentText(s), NatToString(s.index.value);
    SegmentTextShape(s);
    assert forall k :: 0 <= k < |s.tag| ==> text[k] == s.tag[k];
    var at := IndexOf(text, '[');
    assert at == |s.tag|;
    var inner := text[at + 1..];
    assert inner[..|inner| - 1] == d;
    NatToStringRoundTrip(s.index.value);
  }

  lemma SegmentTextNoSlash(s: Step)
    requires TagOk(s.tag)
    ensures '/' !in SegmentText(s)
  {
    if s.index.Some? {
      var text, d := SegmentText(s), NatToString(s.index.value);
      SegmentTextShape(s);
      forall k | 0 <= k < |text| ensures text[k] != '/' {
        if k < |s.tag| {
          assert text[k] == s.tag[k];
        } else if |s.tag| < k < |text| - 1 {
          assert text[k] == d[k - |s.tag| - 1];
        }
      }
    }
  }

  lemma ParseSegmentText(s: Step)
    requires TagOk(s.tag)
    ensures ParseSegment(SegmentText(s)) == Some(s)
    ensures '/' !in SegmentText(s)
  {
    SegmentTextNoSlash(s);
    if s.index.Some? {
      ParseIndexedSegment(s);
    }
  }

  lemma {:induction false} ParseSegmentsOfSteps(steps: seq<Step>)
    requires forall k :: 0 <= k < |steps| ==> TagOk(steps[k].tag)
    ensures ParseSegments(Segments(steps)) == Some(steps)
    decreases |steps|
  {
    if steps != [] {
      ParseSegmentText(steps[0]);
      ParseSegmentsOfSteps(steps[1..]);
      assert Segments(steps)[1..] == Segments(steps[1..]);
      assert [steps[0]] + steps[1..] == steps;
    }
  }

  /** Reading a rendered locator gives its segments back, whenever no tag contains one of
      the characters the syntax uses. */
  lemma ParseRender(steps: seq<Step>)
    requires |steps| >= 1
    requires forall k :: 0 <= k < |steps| ==> TagOk(steps[k].tag)
    ensures ParseXPath(Render(steps)) == Some(steps)
  {
    var segs := Segments(steps);
    forall k | 0 <= k < |segs| ensures '/' !in segs[k] {
      ParseSegmentText(steps[k]);
    }
    SplitJoin(segs, '/');
    assert Render(steps)[1..] == Join(segs, "/");
    ParseSegmentsOfSteps(steps);
  }

  lemma {:induction false} ChildStepsTagsOk(e: Element, p: seq<nat>)
    requires WellFormedTags(e) && ValidPath(e, p)
    ensures forall k :: 0 <= k < |p| ==> TagOk(ChildSteps(e, p)[k].tag)
    decreases p
  {
    if p != [] {
      ChildStepsTagsOk(e.children[p[0]], p[1..]);
      var steps := ChildSteps(e, p);
      assert steps[0].tag == e.children[p[0]].tag;
      assert forall k :: 1 <= k < |p| ==> steps[k] == ChildSteps(e.children[p[0]], p[1..])[k - 1];
    }
  }

  /** Distinct nodes of one well-formed tree get distinct locator strings. */
  lemma DistinctNodesDistinctXPaths(root: Element, p: seq<nat>, q: seq<nat>)
    requires WellFormedTags(root) && ValidPath(root, p) && ValidPath(root, q) && p != q
    ensures Render(Steps(root, p)) != Render(Steps(root, q))
  {
    ChildStepsTagsOk(root, p);
    ChildStepsTagsOk(root, q);
    var sp, sq := Steps(root, p), Steps(root, q);
    assert forall k :: 1 <= k < |sp| ==> sp[k] == ChildSteps(root, p)[k - 1];
    assert forall k :: 1 <= k < |sq| ==> sq[k] == ChildSteps(root, q)[k - 1];
    ParseRender(sp);
    ParseRender(sq);
    DistinctNodesDistinctSteps(root, p, q);
  }
}
