/** `save_script` (app.py): turning a recorded session into the text of a replay script. */
module Script {
  import opened Wrappers
  import opened Text
  import opened Resolution

  /** The gesture a posted action describes, by its `type`: a click at a point, a swipe
      between two points, or any other type, which is recorded but replays as nothing. */
  datatype Gesture = Click(x: int, y: int) | Swipe(x1: int, y1: int, x2: int, y2: int) | Other(kind: string)

  /** A recorded action: the gesture, the seconds since recording began (`time`) and, for a
      click, the description of the element under it (`element`). */
  datatype Action = Action(gesture: Gesture, time: real, element: Option<ElementInfo>)

  /** Pauses up to this long are not written out. */
  const MinDelay: real := 0.1

  /** A line of the script: a line of code, or a pause of `delay` seconds. A pause is kept
      as its delay, and written out only when the script text is put together. */
  datatype Line = Code(text: string) | Pause(delay: real)

  /** The text of a line; a pause is `time.sleep({delay:.2f})`. */
  function LineText(l: Line): string
  {
    match l
    case Code(t) => t
    case Pause(d) => "time.sleep(" + Fixed2(d) + ")"
  }

  function Texts(lines: seq<Line>): (texts: seq<string>)
    ensures |texts| == |lines|
    ensures forall k :: 0 <= k < |lines| ==> texts[k] == LineText(lines[k])
    decreases |lines|
  {
    if lines == [] then [] else [LineText(lines[0])] + Texts(lines[1..])
  }

  /** The fixed head of every script: imports, the connection to the device, a wait. */
  function Preamble(deviceId: string): seq<Line>
  {
    [Code("import uiautomator2 as u2"), Code("import time"), Code(""),
     Code("d = u2.connect('" + deviceId + "')"), Code("d.wait_ready(timeout=10.0)"), Code("")]
  }

  /** A device command: every line an action produces is code starting with `d.`. */
  predicate IsCommand(l: Line)
  {
    l.Code? && |l.text| >= 2 && l.text[..2] == "d."
  }

  /** The pause written before an action: one when it is longer than `MinDelay`. */
  function DelayLines(delay: real): (lines: seq<Line>)
    ensures |lines| <= 1 && (lines != [] <==> delay > MinDelay)
    ensures forall k :: 0 <= k < |lines| ==> lines[k] == Pause(delay)
  {
    if delay > MinDelay then [Pause(delay)] else []
  }

  /** The locator a click replays by: the recorded `xpath`, when the element description is
      there and its `xpath` is a non-empty string. */
  function LocatorOf(a: Action): (xpath: Option<string>)
    ensures xpath.Some? ==> xpath.value != "" && a.element.Some? && a.element.value.xpath == xpath
    ensures xpath.None? ==> a.element.None? || a.element.value.xpath in {None, Some("")}
  {
    if a.element.Some? && a.element.value.xpath.Some? && a.element.value.xpath.value != "" then
      a.element.value.xpath
    else None
  }

  /** The command for one action: a click by its locator when it has one and by its
      coordinates otherwise, a swipe by its two points, nothing for any other type. */
  function ActionLines(a: Action): (lines: seq<Line>)
    ensures |lines| <= 1 && (lines != [] <==> !a.gesture.Other?)
    ensures forall k :: 0 <= k < |lines| ==> IsCommand(lines[k])
  {
    match a.gesture
    case Click(x, y) =>
      if LocatorOf(a).Some? then [Code("d.xpath('" + LocatorOf(a).value + "').click()")]
      else [Code("d.click(" + IntToString(x) + ", " + IntToString(y) + ")")]
    case Swipe(x1, y1, x2, y2) =>
      [Code("d.swipe(" + IntToString(x1) + ", " + IntToString(y1) + ", " + IntToString(x2) + ", " +
            IntToString(y2) + ")")]
    case Other(_) => []
  }

  /** The lines for one action, `prev` being the time of the action before it. */
  function Chunk(a: Action, prev: real): seq<Line>
  {
    DelayLines(a.time - prev) + ActionLines(a)
  }

  /** The lines for a run of actions, the first following an action at time `prev`. */
  function BodyFrom(actions: seq<Action>, prev: real): seq<Line>
    decreases |actions|
  {
    if actions == [] then [] else Chunk(actions[0], prev) + BodyFrom(actions[1..], actions[0].time)
  }

  /** The time the action at `i` is measured from: the previous action's, or the start of
      the recording for the first. */
  function PrevTime(actions: seq<Action>, i: nat): real
    requires i <= |actions|
  {
    if i == 0 then 0.0 else actions[i - 1].time
  }

  /** Every line of the script, in order. */
  function ScriptLines(deviceId: string, actions: seq<Action>): seq<Line>
  {
    Preamble(deviceId) + BodyFrom(actions, 0.0)
  }

  /** The text of the script file. */
  function ScriptText(deviceId: string, actions: seq<Action>): string
  {
    Join(Texts(ScriptLines(deviceId, actions)), "\n")
  }

  /** Appending an action appends its chunk, timed from the last action before it. */
  lemma {:induction false} BodyFromSnoc(actions: seq<Action>, prev: real, a: Action)
    ensures BodyFrom(actions + [a], prev) ==
      BodyFrom(actions, prev) + Chunk(a, if actions == [] then prev else actions[|actions| - 1].time)
    decreases |actions|
  {
    if actions == [] {
      assert [a][1..] == [];
    } else {
      assert (actions + [a])[1..] == actions[1..] + [a];
      BodyFromSnoc(actions[1..], actions[0].time, a);
    }
  }

  lemma TakeOneMore<T>(s: seq<T>, i: nat)
    requires i < |s|
    ensures s[..i + 1] == s[..i] + [s[i]]
  {
  }

  lemma PauseCases(delay: real)
    ensures delay > MinDelay ==> DelayLines(delay) == [Pause(delay)]
    ensures delay <= MinDelay ==> DelayLines(delay) == []
  {
  }

  lemma AppendNothing<T>(s: seq<T>)
    ensures s + [] == s
  {
  }

  lemma AppendRegroup<T>(h: seq<T>, b: seq<T>, d: seq<T>, c: seq<T>)
    ensures h + b + d + c == h + (b + (d + c))
  {
  }

  /** One turn of the loop of `GenerateScript`: the lines it appends for the action at `i`
      are that action's chunk. */
  lemma LoopStep(actions: seq<Action>, i: nat, head: seq<Line>, before: seq<Line>,
                 pause: seq<Line>, after: seq<Line>, prev: real)
    requires i < |actions| && prev == PrevTime(actions, i)
    requires before == head + BodyFrom(actions[..i], 0.0)
    requires pause == DelayLines(actions[i].time - prev)
    requires after == before + pause + ActionLines(actions[i])
    ensures after == head + BodyFrom(actions[..i + 1], 0.0)
  {
    var done := actions[..i];
    var a := actions[i];
    TakeOneMore(actions, i);
    assert (if done == [] then 0.0 else done[|done| - 1].time) == prev;
    BodyFromSnoc(done, 0.0, a);
    var chunk := Chunk(a, prev);
    assert chunk == DelayLines(a.time - prev) + ActionLines(a);
    AppendRegroup(head, BodyFrom(done, 0.0), DelayLines(a.time - prev), ActionLines(a));
  }

  /** The script text: the lines joined by newlines, built as the loop of `save_script`
      builds them, one action at a time, each timed from the one before. */
  method GenerateScript(deviceId: string, actions: seq<Action>) returns (content: string)
    ensures content == ScriptText(deviceId, actions)
  {
    var head := Preamble(deviceId);
    var lines := head;
    var prev := 0.0;
    for i := 0 to |actions|
      invariant lines == head + BodyFrom(actions[..i], 0.0)
      invariant prev == PrevTime(actions, i)
    {
      var a := actions[i];
      ghost var before := lines;
      ghost var pause: seq<Line> := [];
      var delay := a.time - prev;
      if delay > MinDelay {
        pause := [Pause(delay)];
        lines := lines + [Pause(delay)];
      } else {
        AppendNothing(lines);
      }
      var command := ActionLines(a);
      lines := lines + command;
      PauseCases(delay);
      LoopStep(actions, i, head, before, pause, lines, prev);
      prev := a.time;
    }
    assert actions[..|actions|] == actions;
    assert lines == ScriptLines(deviceId, actions);
    content := Join(Texts(lines), "\n");
  }

  // ---------------------------------------------------------------------------------------
  // Timing only inserts pauses
  // ---------------------------------------------------------------------------------------

  /** The lines that are not pauses, in order. */
  function WithoutPauses(lines: seq<Line>): (r: seq<Line>)
    ensures forall k :: 0 <= k < |r| ==> !r[k].Pause?
    decreases |lines|
  {
    if lines == [] then []
    else (if lines[0].Pause? then [] else [lines[0]]) + WithoutPauses(lines[1..])
  }

  /** The commands of a run of actions, one per click or swipe, in recording order. */
  function Commands(actions: seq<Action>): (cmds: seq<Line>)
    ensures forall k :: 0 <= k < |cmds| ==> IsCommand(cmds[k])
    decreases |actions|
  {
    if actions == [] then [] else ActionLines(actions[0]) + Commands(actions[1..])
  }

  lemma {:induction false} WithoutPausesConcat(a: seq<Line>, b: seq<Line>)
    ensures WithoutPauses(a + b) == WithoutPauses(a) + WithoutPauses(b)
    decreases |a|
  {
    if a == [] {
      assert a + b == b;
    } else {
      assert (a + b)[1..] == a[1..] + b;
      WithoutPausesConcat(a[1..], b);
    }
  }

  lemma CommandsAreNotPauses(a: Action)
    ensures WithoutPauses(ActionLines(a)) == ActionLines(a)
  {
    var lines := ActionLines(a);
    if lines != [] {
      assert lines[1..] == [];
    }
  }

  /** Whatever the times, the code lines after the preamble are exactly the commands of the
      recorded clicks and swipes, in recording order: timing only inserts pauses. */
  lemma {:induction false} TimingOnlyAddsPauses(actions: seq<Action>, prev: real)
    ensures WithoutPauses(BodyFrom(actions, prev)) == Commands(actions)
    decreases |actions|
  {
    if actions != [] {
      var a := actions[0];
      TimingOnlyAddsPauses(actions[1..], a.time);
      WithoutPausesConcat(Chunk(a, prev), BodyFrom(actions[1..], a.time));
      WithoutPausesConcat(DelayLines(a.time - prev), ActionLines(a));
      CommandsAreNotPauses(a);
      var d := DelayLines(a.time - prev);
      if d != [] {
        assert d[1..] == [];
      }
    }
  }

  // ---------------------------------------------------------------------------------------
  // Reading a command line back
  // ---------------------------------------------------------------------------------------

  /** What a command line makes the device do when the script runs: click the element an
      XPath selects, tap a point, or swipe between two points. */
  datatype Replay = ByXPath(xpath: string) | Tap(x: int, y: int) | Drag(x1: int, y1: int, x2: int, y2: int)

  predicate HasAffixes(t: string, pre: string, post: string)
  {
    |t| >= |pre| + |post| && t[..|pre|] == pre && t[|t| - |post|..] == post
  }

  function Between(t: string, pre: string, post: string): string
    requires HasAffixes(t, pre, post)
  {
    t[|pre|..|t| - |post|]
  }

  /** An argument after the first: one space, then an integer literal. */
  function Spaced(piece: string): Option<int>
  {
    if |piece| >= 1 && piece[0] == ' ' then ParseInt(piece[1..]) else None
  }

  function SpacedAll(pieces: seq<string>): Option<seq<int>>
    decreases |pieces|
  {
    if pieces == [] then Some([])
    else match (Spaced(pieces[0]), SpacedAll(pieces[1..]))
      case (Some(v), Some(vs)) => Some([v] + vs)
      case _ => None
  }

  /** The integer arguments of a call, written `a, b, ...`. */
  function ReadArgs(s: string): Option<seq<int>>
  {
    var parts := Split(s, ',');
    match (ParseInt(parts[0]), SpacedAll(parts[1..]))
    case (Some(v), Some(vs)) => Some([v] + vs)
    case _ => None
  }

  /** Text that a single-quoted Python literal holds unchanged: no quote, which would end
      the literal, no backslash, which would start an escape sequence, and no line break
      (`\n` or `\r`), which a single-quoted literal cannot span. */
  predicate Unescaped(text: string)
  {
    '\'' !in text && '\\' !in text && '\n' !in text && '\r' !in text
  }

  /** The replay a command line stands for: `d.xpath('L').click()` where `L` holds no quote,
      no backslash and no line break (so that the Python literal `'L'` denotes `L` itself),
      `d.click(x, y)` or `d.swipe(x1, y1, x2, y2)`; `None` for any other text. */
  function ReadCommand(t: string): Option<Replay>
  {
    if HasAffixes(t, "d.xpath('", "').click()") then
      var locator := Between(t, "d.xpath('", "').click()");
      if Unescaped(locator) then Some(ByXPath(locator)) else None
    else if HasAffixes(t, "d.click(", ")") then
      match ReadArgs(Between(t, "d.click(", ")"))
      case Some(vs) => if |vs| == 2 then Some(Tap(vs[0], vs[1])) else None
      case None => None
    else if HasAffixes(t, "d.swipe(", ")") then
      match ReadArgs(Between(t, "d.swipe(", ")"))
      case Some(vs) => if |vs| == 4 then Some(Drag(vs[0], vs[1], vs[2], vs[3])) else None
      case None => None
    else None
  }

  lemma Affixes(pre: string, mid: string, post: string)
    ensures HasAffixes(pre + mid + post, pre, post) && Between(pre + mid + post, pre, post) == mid
  {
    var t := pre + mid + post;
    assert t[..|pre|] == pre;
    assert t[|t| - |post|..] == post;
  }

  lemma NoCommaInInt(i: int)
    ensures ',' !in IntToString(i) && ',' !in " " + IntToString(i)
  {
    var s := IntToString(i);
    forall k | 0 <= k < |s|
      ensures s[k] != ','
    {
    }
  }

  lemma SpacedInt(i: int)
    ensures Spaced(" " + IntToString(i)) == Some(i)
  {
    assert (" " + IntToString(i))[1..] == IntToString(i);
    IntToStringRoundTrip(i);
  }

  lemma SpacedAllCons(p: string, ps: seq<string>, v: int, vs: seq<int>)
    requires Spaced(p) == Some(v) && SpacedAll(ps) == Some(vs)
    ensures SpacedAll([p] + ps) == Some([v] + vs)
  {
    assert ([p] + ps)[1..] == ps;
  }

  /** Splitting `a,b` where `a` holds no comma: `a`, then the pieces of `b`. */
  lemma SplitFirst(a: string, b: string)
    requires ',' !in a
    ensures Split(a + "," + b, ',') == [a] + Split(b, ',')
  {
    SplitAfterFirstPiece(a, ',', b);
  }

  lemma ArgsTextTwo(a: string, b: string)
    ensures a + ", " + b == a + "," + (" " + b)
  {
  }

  /** `a,b` reads back as its two integers when `a` is one and `b` is a space and one. */
  lemma ReadTwo(a: string, b: string, x: int, y: int)
    requires ',' !in a && ',' !in b && ParseInt(a) == Some(x) && Spaced(b) == Some(y)
    ensures ReadArgs(a + "," + b) == Some([x, y])
  {
    SplitFirst(a, b);
    SplitWithoutSeparator(b, ',');
    assert [a] + [b] == [a, b];
    SpacedAllCons(b, [], y, []);
    assert [b] + [] == [b] && [y] + [] == [y];
    ReadArgsOf(a + "," + b, a, [b], x, [y]);
    assert [x] + [y] == [x, y];
  }

  lemma ReadTwoArgs(x: int, y: int)
    ensures ReadArgs(IntToString(x) + ", " + IntToString(y)) == Some([x, y])
  {
    NoCommaInInt(x);
    NoCommaInInt(y);
    IntToStringRoundTrip(x);
    SpacedInt(y);
    ArgsTextTwo(IntToString(x), IntToString(y));
    ReadTwo(IntToString(x), " " + IntToString(y), x, y);
  }

  lemma ArgsTextFour(a: string, b: string, c: string, d: string)
    ensures a + ", " + b + ", " + c + ", " + d == a + "," + ((" " + b) + "," + ((" " + c) + "," + (" " + d)))
  {
  }

  lemma SplitArgsFour(a: string, b: string, c: string, d: string)
    requires ',' !in a && ',' !in b && ',' !in c && ',' !in d
    ensures Split(a + "," + (b + "," + (c + "," + d)), ',') == [a, b, c, d]
  {
    SplitWithoutSeparator(d, ',');
    SplitFirst(c, d);
    SplitFirst(b, c + "," + d);
    SplitFirst(a, b + "," + (c + "," + d));
  }

  lemma ReadArgsOf(s: string, first: string, rest: seq<string>, v: int, vs: seq<int>)
    requires Split(s, ',') == [first] + rest
    requires ParseInt(first) == Some(v) && SpacedAll(rest) == Some(vs)
    ensures ReadArgs(s) == Some([v] + vs)
  {
    assert ([first] + rest)[1..] == rest;
  }

  lemma SpacedThree(b: string, c: string, d: string, y1: int, x2: int, y2: int)
    requires Spaced(b) == Some(y1) && Spaced(c) == Some(x2) && Spaced(d) == Some(y2)
    ensures SpacedAll([b, c, d]) == Some([y1, x2, y2])
  {
    SpacedAllCons(d, [], y2, []);
    assert [d] + [] == [d] && [y2] + [] == [y2];
    SpacedAllCons(c, [d], x2, [y2]);
    assert [c] + [d] == [c, d] && [x2] + [y2] == [x2, y2];
    SpacedAllCons(b, [c, d], y1, [x2, y2]);
    assert [b] + [c, d] == [b, c, d] && [y1] + [x2, y2] == [y1, x2, y2];
  }

  /** `a,b,c,d` reads back as its four integers when `a` is one and `b`, `c`, `d` are a
      space and one. */
  lemma ReadFour(a: string, b: string, c: string, d: string, x1: int, y1: int, x2: int, y2: int)
    requires ',' !in a && ',' !in b && ',' !in c && ',' !in d
    requires ParseInt(a) == Some(x1) && Spaced(b) == Some(y1) && Spaced(c) == Some(x2) && Spaced(d) == Some(y2)
    ensures ReadArgs(a + "," + (b + "," + (c + "," + d))) == Some([x1, y1, x2, y2])
  {
    SplitArgsFour(a, b, c, d);
    SpacedThree(b, c, d, y1, x2, y2);
    assert [a, b, c, d] == [a] + [b, c, d];
    ReadArgsOf(a + "," + (b + "," + (c + "," + d)), a, [b, c, d], x1, [y1, x2, y2]);
    assert [x1] + [y1, x2, y2] == [x1, y1, x2, y2];
  }

  lemma ReadFourArgs(x1: int, y1: int, x2: int, y2: int)
    ensures ReadArgs(IntToString(x1) + ", " + IntToString(y1) + ", " + IntToString(x2) + ", " +
                     IntToString(y2)) == Some([x1, y1, x2, y2])
  {
    NoCommaInInt(x1);
    NoCommaInInt(y1);
    NoCommaInInt(x2);
    NoCommaInInt(y2);
    IntToStringRoundTrip(x1);
    SpacedInt(y1);
    SpacedInt(x2);
    SpacedInt(y2);
    ArgsTextFour(IntToString(x1), IntToString(y1), IntToString(x2), IntToString(y2));
    ReadFour(IntToString(x1), " " + IntToString(y1), " " + IntToString(x2), " " + IntToString(y2), x1, y1, x2, y2);
  }

  lemma ReadXPathLine(locator: string)
    ensures ReadCommand("d.xpath('" + locator + "').click()") ==
      if Unescaped(locator) then Some(ByXPath(locator)) else None
  {
    Affixes("d.xpath('", locator, "').click()");
  }

  lemma ReadClickText(args: string, x: int, y: int)
    requires ReadArgs(args) == Some([x, y])
    ensures ReadCommand("d.click(" + args + ")") == Some(Tap(x, y))
  {
    var t := "d.click(" + args + ")";
    Affixes("d.click(", args, ")");
    assert t[2] == 'c';
  }

  lemma ReadSwipeText(args: string, x1: int, y1: int, x2: int, y2: int)
    requires ReadArgs(args) == Some([x1, y1, x2, y2])
    ensures ReadCommand("d.swipe(" + args + ")") == Some(Drag(x1, y1, x2, y2))
  {
    var t := "d.swipe(" + args + ")";
    Affixes("d.swipe(", args, ")");
    assert t[2] == 's' && t[3] == 'w';
  }

  lemma Regroup3(p: string, a: string, m: string, b: string, q: string)
    ensures p + a + m + b + q == p + (a + m + b) + q
  {
  }

  lemma Regroup7(p: string, a: string, b: string, c: string, d: string, sep: string, q: string)
    ensures p + a + sep + b + sep + c + sep + d + q == p + (a + sep + b + sep + c + sep + d) + q
  {
  }

  lemma ReadClickLine(x: int, y: int)
    ensures ReadCommand("d.click(" + IntToString(x) + ", " + IntToString(y) + ")") == Some(Tap(x, y))
  {
    Regroup3("d.click(", IntToString(x), ", ", IntToString(y), ")");
    ReadTwoArgs(x, y);
    ReadClickText(IntToString(x) + ", " + IntToString(y), x, y);
  }

  lemma ReadSwipeLine(x1: int, y1: int, x2: int, y2: int)
    ensures ReadCommand("d.swipe(" + IntToString(x1) + ", " + IntToString(y1) + ", " + IntToString(x2) + ", " +
                        IntToString(y2) + ")") == Some(Drag(x1, y1, x2, y2))
  {
    Regroup7("d.swipe(", IntToString(x1), IntToString(y1), IntToString(x2), IntToString(y2), ", ", ")");
    ReadFourArgs(x1, y1, x2, y2);
    ReadSwipeText(IntToString(x1) + ", " + IntToString(y1) + ", " + IntToString(x2) + ", " + IntToString(y2),
                  x1, y1, x2, y2);
  }

  /** Reading back the line written for a click or a swipe gives what it replays: a click
      by its locator when it has one, by its coordinates otherwise, and a swipe by its two
      points, the coordinates unchanged. A locator holding a quote ends the string literal
      early, one holding a backslash starts an escape sequence, and one holding a line break
      leaves the literal unterminated, so Python would not see the locator itself; such a
      line does not read back. */
  lemma ReadActionLine(a: Action)
    requires !a.gesture.Other?
    ensures a.gesture.Click? && LocatorOf(a).Some? && Unescaped(LocatorOf(a).value) ==>
      ReadCommand(LineText(ActionLines(a)[0])) == Some(ByXPath(LocatorOf(a).value))
    ensures a.gesture.Click? && LocatorOf(a).Some? && !Unescaped(LocatorOf(a).value) ==>
      ReadCommand(LineText(ActionLines(a)[0])).None?
    ensures a.gesture.Click? && LocatorOf(a).None? ==>
      ReadCommand(LineText(ActionLines(a)[0])) == Some(Tap(a.gesture.x, a.gesture.y))
    ensures a.gesture.Swipe? ==>
      ReadCommand(LineText(ActionLines(a)[0])) ==
        Some(Drag(a.gesture.x1, a.gesture.y1, a.gesture.x2, a.gesture.y2))
  {
    match a.gesture
    case Click(x, y) =>
      if LocatorOf(a).Some? {
        ReadXPathLine(LocatorOf(a).value);
      } else {
        ReadClickLine(x, y);
      }
    case Swipe(x1, y1, x2, y2) =>
      ReadSwipeLine(x1, y1, x2, y2);
  }

  // ---------------------------------------------------------------------------------------
  // The saved file has exactly these lines
  // ---------------------------------------------------------------------------------------

  /** No recorded locator spans two lines. */
  predicate SingleLineLocators(actions: seq<Action>)
  {
    forall k :: 0 <= k < |actions| && LocatorOf(actions[k]).Some? ==> '\n' !in LocatorOf(actions[k]).value
  }

  lemma NoNewlineInInt(i: int)
    ensures '\n' !in IntToString(i)
  {
    var s := IntToString(i);
    forall k | 0 <= k < |s|
      ensures s[k] != '\n'
    {
    }
  }

  predicate SingleLine(l: Line)
  {
    '\n' !in LineText(l)
  }

  lemma PauseIsSingleLine(delay: real)
    ensures SingleLine(Pause(delay))
  {
    var f := Fixed2(delay);
    assert '\n' !in f by {
      forall k | 0 <= k < |f|
        ensures f[k] != '\n'
      {
      }
    }
  }

  lemma CommandIsSingleLine(a: Action)
    requires LocatorOf(a).Some? ==> '\n' !in LocatorOf(a).value
    ensures forall k :: 0 <= k < |ActionLines(a)| ==> SingleLine(ActionLines(a)[k])
  {
    match a.gesture
    case Click(x, y) =>
      NoNewlineInInt(x);
      NoNewlineInInt(y);
    case Swipe(x1, y1, x2, y2) =>
      NoNewlineInInt(x1);
      NoNewlineInInt(y1);
      NoNewlineInInt(x2);
      NoNewlineInInt(y2);
    case Other(_) =>
  }

  lemma {:induction false} BodyIsSingleLines(actions: seq<Action>, prev: real)
    requires SingleLineLocators(actions)
    ensures forall k :: 0 <= k < |BodyFrom(actions, prev)| ==> SingleLine(BodyFrom(actions, prev)[k])
    decreases |actions|
  {
    if actions != [] {
      var a := actions[0];
      assert LocatorOf(a).Some? ==> '\n' !in LocatorOf(a).value;
      PauseIsSingleLine(a.time - prev);
      CommandIsSingleLine(a);
      assert SingleLineLocators(actions[1..]) by {
        forall k | 0 <= k < |actions[1..]| && LocatorOf(actions[1..][k]).Some?
          ensures '\n' !in LocatorOf(actions[1..][k]).value
        {
          assert actions[1..][k] == actions[k + 1];
        }
      }
      BodyIsSingleLines(actions[1..], a.time);
    }
  }

  lemma ConnectLineIsSingleLine(deviceId: string)
    requires '\n' !in deviceId
    ensures '\n' !in "d = u2.connect('" + deviceId + "')"
  {
    assert '\n' !in "d = u2.connect('";
    assert '\n' !in "')";
    NotInConcat('\n', "d = u2.connect('", deviceId);
    NotInConcat('\n', "d = u2.connect('" + deviceId, "')");
  }

  lemma PreambleIsSingleLines(deviceId: string)
    requires '\n' !in deviceId
    ensures forall k :: 0 <= k < |Preamble(deviceId)| ==> SingleLine(Preamble(deviceId)[k])
  {
    ConnectLineIsSingleLine(deviceId);
    assert '\n' !in "import uiautomator2 as u2";
    assert '\n' !in "import time";
    assert '\n' !in "d.wait_ready(timeout=10.0)";
  }

  lemma ScriptIsSingleLines(deviceId: string, actions: seq<Action>)
    requires '\n' !in deviceId && SingleLineLocators(actions)
    ensures forall k :: 0 <= k < |ScriptLines(deviceId, actions)| ==> SingleLine(ScriptLines(deviceId, actions)[k])
  {
    PreambleIsSingleLines(deviceId);
    BodyIsSingleLines(actions, 0.0);
  }

  lemma TextsOfSingleLines(lines: seq<Line>)
    requires forall k :: 0 <= k < |lines| ==> SingleLine(lines[k])
    ensures forall k :: 0 <= k < |Texts(lines)| ==> '\n' !in Texts(lines)[k]
  {
  }

  /** Splitting the saved text at newlines gives back the text of every script line, in
      order, as long as the device id and the locators are single-line strings. */
  lemma ScriptTextSplitsIntoLines(deviceId: string, actions: seq<Action>)
    requires '\n' !in deviceId && SingleLineLocators(actions)
    ensures Split(ScriptText(deviceId, actions), '\n') == Texts(ScriptLines(deviceId, actions))
  {
    ScriptIsSingleLines(deviceId, actions);
    TextsOfSingleLines(ScriptLines(deviceId, actions));
    SplitJoin(Texts(ScriptLines(deviceId, actions)), '\n');
  }

  /** A pause of 0.42 seconds is written `time.sleep(0.42)`. */
  lemma PauseExample()
    ensures LineText(Pause(0.42)) == "time.sleep(0.42)"
  {
    assert RoundHalfEven(42.0) == 42;
    assert NatToString(0) == "0";
  }
}
