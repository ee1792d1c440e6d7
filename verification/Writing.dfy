/**
 Nested writing containers (pkg/connector/writing.go, renderWritingBlocks). A line is classified
 by the regular expressions and the Markdown parser: an opener, a closer, or plain, which every
 line of code is. Lines hold no newline, so splitting joined lines gives them back, and joining
 none gives one empty line.
 */
module Writing {

  datatype Option<+T> = None | Some(value: T)

  datatype Variant = Draft | DraftMessage | EmailDraft

  datatype Kind = Open(variant: Variant) | Close | Plain

  /** What a line of output says: a source line, a container's label, or nothing. */
  datatype What = Source(line: nat) | Title(variant: Variant) | Blank

  const DEEPEST: nat := 16

  // ---------------------------------------------------------------- matching

  /** The closer found by counting from here, with so many containers open; the end if there is none. */
  function Closing(kinds: seq<Kind>, j: nat, end: nat, nested: nat): (closer: nat)
    requires j <= end <= |kinds| && nested > 0
    ensures j <= closer <= end && (closer < end ==> kinds[closer].Close?)
    decreases end - j
  {
    if j == end then end
    else match kinds[j]
      case Plain => Closing(kinds, j + 1, end, nested)
      case Open(_) => Closing(kinds, j + 1, end, nested + 1)
      case Close => if nested == 1 then j else Closing(kinds, j + 1, end, nested - 1)
  }

  function Closer(kinds: seq<Kind>, i: nat, end: nat): (closer: nat)
    requires i < end <= |kinds|
    ensures i < closer <= end && (closer < end ==> kinds[closer].Close?)
  {
    Closing(kinds, i + 1, end, 1)
  }

  /** The grammar of balanced lines: plain ones, and containers of balanced lines. */
  ghost predicate Balanced(kinds: seq<Kind>, start: nat, end: nat)
    requires end <= |kinds|
    decreases end - start
  {
    start == end || (start < end &&
      (match kinds[start]
       case Plain => Balanced(kinds, start + 1, end)
       case Open(_) => exists m: nat :: Bracket(kinds, start, m, end) && Balanced(kinds, start + 1, m) && Balanced(kinds, m + 1, end)
       case Close => false))
  }

  predicate Bracket(kinds: seq<Kind>, start: nat, m: nat, end: nat)
    requires end <= |kinds|
  {
    start < m < end && kinds[m].Close?
  }

  /** Balanced lines do not change how many containers are open. */
  lemma {:induction false} BalancedPasses(kinds: seq<Kind>, start: nat, m: nat, end: nat, nested: nat)
    requires start <= m <= end <= |kinds| && nested > 0 && Balanced(kinds, start, m)
    ensures Closing(kinds, start, end, nested) == Closing(kinds, m, end, nested)
    decreases m - start
  {
    if start < m {
      match kinds[start] {
        case Plain => BalancedPasses(kinds, start + 1, m, end, nested);
        case Open(_) =>
          var c: nat :| Bracket(kinds, start, c, m) && Balanced(kinds, start + 1, c) && Balanced(kinds, c + 1, m);
          BalancedPasses(kinds, start + 1, c, end, nested + 1);
          BalancedPasses(kinds, c + 1, m, end, nested);
      }
    }
  }

  /** Balanced lines, a closer, and so on, for so many closers. */
  ghost predicate Closed(kinds: seq<Kind>, start: nat, end: nat, nested: nat)
    requires end <= |kinds| && nested > 0
    decreases nested
  {
    if nested == 1 then start <= end && Balanced(kinds, start, end)
    else exists m: nat :: Stretch(kinds, start, m, end) && Closed(kinds, m + 1, end, nested - 1)
  }

  ghost predicate Stretch(kinds: seq<Kind>, start: nat, m: nat, end: nat)
    requires end <= |kinds|
  {
    start <= m < end && kinds[m].Close? && Balanced(kinds, start, m)
  }

  /** One more balanced item in front. */
  lemma ClosedLonger(kinds: seq<Kind>, start: nat, next: nat, end: nat, nested: nat)
    requires start < next <= end <= |kinds| && nested > 0 && Closed(kinds, next, end, nested)
    requires
      || (kinds[start].Plain? && next == start + 1)
      || (kinds[start].Open? && next > start + 1 && kinds[next - 1].Close? && Balanced(kinds, start + 1, next - 1))
    ensures Closed(kinds, start, end, nested)
  {
    if nested == 1 {
      BalancedLonger(kinds, start, next, end);
    } else {
      var m: nat :| Stretch(kinds, next, m, end) && Closed(kinds, m + 1, end, nested - 1);
      BalancedLonger(kinds, start, next, m);
      assert Stretch(kinds, start, m, end);
    }
  }

  lemma BalancedLonger(kinds: seq<Kind>, start: nat, next: nat, end: nat)
    requires start < next <= end <= |kinds| && Balanced(kinds, next, end)
    requires
      || (kinds[start].Plain? && next == start + 1)
      || (kinds[start].Open? && next > start + 1 && kinds[next - 1].Close? && Balanced(kinds, start + 1, next - 1))
    ensures Balanced(kinds, start, end)
  {
    if kinds[start].Open? { assert Bracket(kinds, start, next - 1, end); }
  }

  lemma {:induction false} CountingCloses(kinds: seq<Kind>, start: nat, end: nat, nested: nat)
    requires start <= end <= |kinds| && nested > 0 && Closing(kinds, start, end, nested) < end
    ensures Closed(kinds, start, Closing(kinds, start, end, nested), nested)
    decreases end - start
  {
    var closer := Closing(kinds, start, end, nested);
    match kinds[start] {
      case Plain =>
        CountingCloses(kinds, start + 1, end, nested);
        ClosedLonger(kinds, start, start + 1, closer, nested);
      case Open(_) =>
        CountingCloses(kinds, start + 1, end, nested + 1);
        var m: nat :| Stretch(kinds, start + 1, m, closer) && Closed(kinds, m + 1, closer, nested);
        ClosedLonger(kinds, start, m + 1, closer, nested);
      case Close =>
        if nested > 1 {
          CountingCloses(kinds, start + 1, end, nested - 1);
          assert Stretch(kinds, start, start, closer);
        }
    }
  }

  /** The counted closer is exactly the one that leaves the container's inside balanced. */
  lemma CloserIsMatch(kinds: seq<Kind>, i: nat, end: nat, j: nat)
    requires i < end <= |kinds|
    ensures j == Closer(kinds, i, end) < end <==> i < j < end && kinds[j].Close? && Balanced(kinds, i + 1, j)
  {
    if j == Closer(kinds, i, end) < end { CountingCloses(kinds, i + 1, end, 1); }
    if i < j < end && kinds[j].Close? && Balanced(kinds, i + 1, j) { BalancedPasses(kinds, i + 1, j, end, 1); }
  }

  /** In balanced lines every opener is closed, and what follows its closer is balanced too. */
  lemma BalancedOpener(kinds: seq<Kind>, start: nat, end: nat)
    requires start < end <= |kinds| && kinds[start].Open? && Balanced(kinds, start, end)
    ensures var closer := Closer(kinds, start, end);
      closer < end && Balanced(kinds, start + 1, closer) && Balanced(kinds, closer + 1, end)
  {
    var m: nat :| Bracket(kinds, start, m, end) && Balanced(kinds, start + 1, m) && Balanced(kinds, m + 1, end);
    CloserIsMatch(kinds, start, end, m);
  }

  // ---------------------------------------------------------------- rendering

  /** The lines of output: how deeply each is quoted, and what it says. */
  datatype Out = End | Line(depth: nat, what: What, rest: Out)

  /** Lines left as they are, before the rest. */
  function Raw(i: nat, end: nat, depth: nat, rest: Out): Out
    requires i <= end
    decreases end - i
  {
    if i == end then rest else Line(depth, Source(i), Raw(i + 1, end, depth, rest))
  }

  function Heading(variant: Variant, depth: nat, rest: Out): Out {
    Line(depth, Blank, Line(depth, Title(variant), Line(depth, Blank, rest)))
  }

  /**
   The recursive rendering of some lines, at a depth of quotation, before the rest. Joining no
   lines gives one empty line, so an empty container shows one.
   */
  function Render(kinds: seq<Kind>, i: nat, end: nat, depth: nat, rest: Out): Out
    requires i <= end <= |kinds|
    decreases end - i
  {
    if depth >= DEEPEST then Raw(i, end, depth, rest)
    else if i == end then rest
    else if !kinds[i].Open? then Line(depth, Source(i), Render(kinds, i + 1, end, depth, rest))
    else
      var j := Closer(kinds, i, end);
      if j == end then Raw(i, end, depth, rest)
      else
        var after := Line(depth, Blank, Render(kinds, j + 1, end, depth, rest));
        Heading(kinds[i].variant, depth,
          if i + 1 == j then Line(depth + 1, Blank, after) else Render(kinds, i + 1, j, depth + 1, after))
  }

  /** The source lines and the labels of the output, with their depths. */
  function Said(out: Out): Out {
    match out
    case End => End
    case Line(depth, what, rest) => if what.Blank? then Said(rest) else Line(depth, what, Said(rest))
  }

  // ---------------------------------------------------------------- one pass with a counter

  function Min(a: nat, b: nat): nat { if a <= b then a else b }

  /** An opener becomes its container's label, unless it stands too deep to be rendered. */
  function Opener(i: nat, variant: Variant, depth: nat, rest: Out): Out {
    if depth < DEEPEST then Line(depth, Title(variant), rest) else Line(DEEPEST, Source(i), rest)
  }

  /** A closer is dropped, unless it stands too deep. */
  function Marker(i: nat, depth: nat, rest: Out): Out {
    if depth < DEEPEST then rest else Line(DEEPEST, Source(i), rest)
  }

  /**
   What becomes of each source line, by counting open containers: the first opener that stands
   in no container and is never closed leaves the rest of the text as it is.
   */
  function Walk(kinds: seq<Kind>, i: nat, end: nat, open: nat, rest: Out): Out
    requires i <= end <= |kinds|
    decreases end - i
  {
    if i == end then rest
    else match kinds[i]
      case Plain => Line(Min(open, DEEPEST), Source(i), Walk(kinds, i + 1, end, open, rest))
      case Open(variant) =>
        if open == 0 && Closer(kinds, i, end) == end then Raw(i, end, 0, rest)
        else Opener(i, variant, open, Walk(kinds, i + 1, end, open + 1, rest))
      case Close =>
        if open == 0 then Line(0, Source(i), Walk(kinds, i + 1, end, 0, rest))
        else Marker(i, open - 1, Walk(kinds, i + 1, end, open - 1, rest))
  }

  lemma {:induction false} SaidRaw(i: nat, end: nat, depth: nat, rest: Out)
    requires i <= end
    ensures Said(Raw(i, end, depth, rest)) == Raw(i, end, depth, Said(rest))
    decreases end - i
  {
    if i < end { SaidRaw(i + 1, end, depth, rest); }
  }

  lemma {:induction false} RawSplit(a: nat, b: nat, c: nat, depth: nat, rest: Out)
    requires a <= b <= c
    ensures Raw(a, c, depth, rest) == Raw(a, b, depth, Raw(b, c, depth, rest))
    decreases b - a
  {
    if a < b { RawSplit(a + 1, b, c, depth, rest); }
  }

  /** Walking through a closed container: its inside, its closer, and what follows. */
  lemma {:induction false} WalkThrough(kinds: seq<Kind>, i: nat, end: nat, outside: nat, nested: nat, rest: Out)
    requires i <= end <= |kinds| && nested > 0 && Closing(kinds, i, end, nested) < end
    ensures var j := Closing(kinds, i, end, nested);
      Walk(kinds, i, end, outside + nested, rest)
        == Walk(kinds, i, j, outside + nested, Marker(j, outside, Walk(kinds, j + 1, end, outside, rest)))
    decreases end - i
  {
    match kinds[i] {
      case Plain => WalkThrough(kinds, i + 1, end, outside, nested, rest);
      case Open(_) => WalkThrough(kinds, i + 1, end, outside, nested + 1, rest);
      case Close => if nested > 1 { WalkThrough(kinds, i + 1, end, outside, nested - 1, rest); }
    }
  }

  /** Beyond the deepest level, balanced lines are left as they are. */
  lemma {:induction false} WalkDeep(kinds: seq<Kind>, i: nat, end: nat, open: nat, rest: Out)
    requires i <= end <= |kinds| && open >= DEEPEST && Balanced(kinds, i, end)
    ensures Walk(kinds, i, end, open, rest) == Raw(i, end, DEEPEST, rest)
    decreases end - i
  {
    if i < end {
      match kinds[i] {
        case Plain => WalkDeep(kinds, i + 1, end, open, rest);
        case Open(_) =>
          BalancedOpener(kinds, i, end);
          var j := Closer(kinds, i, end);
          var after := Walk(kinds, j + 1, end, open, rest);
          WalkThrough(kinds, i + 1, end, open, 1, rest);
          WalkDeep(kinds, i + 1, j, open + 1, Line(DEEPEST, Source(j), after));
          WalkDeep(kinds, j + 1, end, open, rest);
          RawSplit(i + 1, j, end, DEEPEST, rest);
      }
    }
  }

  lemma InnerBalanced(kinds: seq<Kind>, i: nat, end: nat, depth: nat)
    requires i < end <= |kinds| && (depth == 0 || Balanced(kinds, i, end)) && kinds[i].Open?
    ensures var j := Closer(kinds, i, end);
      && (j == end ==> depth == 0)
      && (j < end ==> Balanced(kinds, i + 1, j) && (depth == 0 || Balanced(kinds, j + 1, end)))
  {
    if depth > 0 { BalancedOpener(kinds, i, end); }
    CloserIsMatch(kinds, i, end, Closer(kinds, i, end));
  }

  /** Inside a closed container, and at the outermost level, rendering places lines as the count does. */
  lemma {:induction false} RenderWalks(kinds: seq<Kind>, i: nat, end: nat, depth: nat, rest: Out)
    requires i <= end <= |kinds| && depth <= DEEPEST && (depth == 0 || Balanced(kinds, i, end))
    ensures Said(Render(kinds, i, end, depth, rest)) == Walk(kinds, i, end, depth, Said(rest))
    decreases end - i, 1
  {
    if depth == DEEPEST {
      SaidRaw(i, end, depth, rest);
      WalkDeep(kinds, i, end, depth, Said(rest));
    } else if i < end {
      if kinds[i].Open? {
        InnerBalanced(kinds, i, end, depth);
        if Closer(kinds, i, end) == end {
          SaidRaw(i, end, 0, rest);
        } else {
          ContainerWalks(kinds, i, Closer(kinds, i, end), end, depth, rest);
        }
      } else {
        RenderWalks(kinds, i + 1, end, depth, rest);
      }
    }
  }

  lemma {:induction false} ContainerWalks(kinds: seq<Kind>, i: nat, j: nat, end: nat, depth: nat, rest: Out)
    requires i < j < end <= |kinds| && depth < DEEPEST && kinds[i].Open? && Closer(kinds, i, end) == j
    requires Balanced(kinds, i + 1, j) && (depth == 0 || Balanced(kinds, j + 1, end))
    ensures Said(Render(kinds, i, end, depth, rest)) == Walk(kinds, i, end, depth, Said(rest))
    decreases end - i, 0
  {
    var after := Line(depth, Blank, Render(kinds, j + 1, end, depth, rest));
    RenderWalks(kinds, j + 1, end, depth, rest);
    RenderWalks(kinds, i + 1, j, depth + 1, after);
    HeadingSaysTitle(kinds[i].variant, depth, if i + 1 == j then Line(depth + 1, Blank, after) else Render(kinds, i + 1, j, depth + 1, after));
    WalkThrough(kinds, i + 1, end, depth, 1, Said(rest));
  }

  lemma HeadingSaysTitle(variant: Variant, depth: nat, rest: Out)
    ensures Said(Heading(variant, depth, rest)) == Line(depth, Title(variant), Said(rest))
  {
    var title := Line(depth, Title(variant), Line(depth, Blank, rest));
    assert Said(title) == Line(depth, Title(variant), Said(rest));
  }

  /** The whole text: no container open, nothing after it. */
  function Rendered(kinds: seq<Kind>): Out {
    Render(kinds, 0, |kinds|, 0, End)
  }

  /**
   The recursive rendering places every source line and label as a single pass that counts open
   containers does: each line outside the dropped markers once, in order, quoted as deeply as it is
   enclosed, up to the limit, and each rendered container's own label where its opener stood.
   */
  lemma RenderIsWalk(kinds: seq<Kind>)
    ensures Said(Rendered(kinds)) == Walk(kinds, 0, |kinds|, 0, End)
  {
    RenderWalks(kinds, 0, |kinds|, 0, End);
  }

  /** The source lines are in strictly increasing order from i, and nothing is deeper than the limit. */
  predicate InOrder(out: Out, i: nat) {
    match out
    case End => true
    case Line(depth, what, rest) =>
      depth <= DEEPEST && (what.Source? ==> what.line >= i) && InOrder(rest, if what.Source? then what.line + 1 else i)
  }

  predicate Appears(out: Out, p: nat) {
    out.Line? && (out.what == Source(p) || Appears(out.rest, p))
  }

  lemma {:induction false} StillInOrder(out: Out, i: nat, j: nat)
    requires InOrder(out, j) && i <= j
    ensures InOrder(out, i)
  {
    if out.Line? && !out.what.Source? { StillInOrder(out.rest, i, j); }
  }

  lemma {:induction false} RawInOrder(i: nat, end: nat)
    requires i <= end
    ensures InOrder(Raw(i, end, 0, End), i) && forall p: nat :: i <= p < end ==> Appears(Raw(i, end, 0, End), p)
    decreases end - i
  {
    if i < end { RawInOrder(i + 1, end); }
  }

  lemma {:induction false} WalkKeepsLines(kinds: seq<Kind>, i: nat, end: nat, open: nat)
    requires i <= end <= |kinds|
    ensures InOrder(Walk(kinds, i, end, open, End), i)
    ensures forall p: nat :: i <= p < end && kinds[p].Plain? ==> Appears(Walk(kinds, i, end, open, End), p)
    decreases end - i
  {
    if i < end {
      var next := match kinds[i] case Plain => open case Open(_) => open + 1 case Close => if open == 0 then 0 else open - 1;
      WalkKeepsLines(kinds, i + 1, end, next);
      StillInOrder(Walk(kinds, i + 1, end, next, End), i, i + 1);
      RawInOrder(i, end);
    }
  }

  /** Nothing that is not a marker is lost, repeated or moved, and nothing is quoted beyond the limit. */
  lemma EveryLineOnceInOrder(kinds: seq<Kind>)
    ensures var out := Said(Rendered(kinds));
      InOrder(out, 0) && forall p: nat :: p < |kinds| && kinds[p].Plain? ==> Appears(out, p)
  {
    RenderIsWalk(kinds);
    WalkKeepsLines(kinds, 0, |kinds|, 0);
  }

  /** Every label stands between blank lines of its own depth; above: the depth of the blank line just above, if there is one. */
  predicate LabelsStandAlone(out: Out, above: Option<nat>) {
    match out
    case End => true
    case Line(depth, what, rest) =>
      && (what.Title? ==> above == Some(depth) && rest.Line? && rest.depth == depth && rest.what == Blank)
      && LabelsStandAlone(rest, if what.Blank? then Some(depth) else None)
  }

  lemma {:induction false} RawStandsAlone(i: nat, end: nat, depth: nat, rest: Out)
    requires i <= end && LabelsStandAlone(rest, None)
    ensures LabelsStandAlone(Raw(i, end, depth, rest), None)
    decreases end - i
  {
    if i < end { RawStandsAlone(i + 1, end, depth, rest); }
  }

  lemma BlankAbove(out: Out, depth: nat)
    requires LabelsStandAlone(out, None)
    ensures LabelsStandAlone(out, Some(depth)) && LabelsStandAlone(Line(depth, Blank, out), None)
  {
  }

  lemma {:induction false} RenderStandsAlone(kinds: seq<Kind>, i: nat, end: nat, depth: nat, rest: Out)
    requires i <= end <= |kinds| && LabelsStandAlone(rest, None)
    ensures LabelsStandAlone(Render(kinds, i, end, depth, rest), None)
    decreases end - i
  {
    RawStandsAlone(i, end, depth, rest);
    if depth < DEEPEST && i < end {
      if !kinds[i].Open? {
        RenderStandsAlone(kinds, i + 1, end, depth, rest);
      } else if Closer(kinds, i, end) < end {
        var j := Closer(kinds, i, end);
        RenderStandsAlone(kinds, j + 1, end, depth, rest);
        var after := Line(depth, Blank, Render(kinds, j + 1, end, depth, rest));
        BlankAbove(Render(kinds, j + 1, end, depth, rest), depth);
        BlankAbove(after, depth + 1);
        RenderStandsAlone(kinds, i + 1, j, depth + 1, after);
        BlankAbove(if i + 1 == j then Line(depth + 1, Blank, after) else Render(kinds, i + 1, j, depth + 1, after), depth);
      }
    }
  }

  /** So a label is a paragraph of its own, whatever is around it. */
  lemma LabelsAreParagraphs(kinds: seq<Kind>)
    ensures LabelsStandAlone(Rendered(kinds), None)
  {
    RenderStandsAlone(kinds, 0, |kinds|, 0, End);
  }

  // ---------------------------------------------------------------- unchanged input

  function FirstOpener(kinds: seq<Kind>, i: nat): (k: nat)
    requires i <= |kinds|
    ensures i <= k <= |kinds| && (k < |kinds| ==> kinds[k].Open?)
    ensures forall j :: i <= j < k ==> !kinds[j].Open?
    decreases |kinds| - i
  {
    if i == |kinds| || kinds[i].Open? then i else FirstOpener(kinds, i + 1)
  }

  function Unchanged(kinds: seq<Kind>): Out {
    Raw(0, |kinds|, 0, End)
  }

  lemma {:induction false} UnchangedFrom(kinds: seq<Kind>, i: nat)
    requires i <= |kinds|
    ensures var k := FirstOpener(kinds, i);
      Render(kinds, i, |kinds|, 0, End) == Raw(i, |kinds|, 0, End) <==> k == |kinds| || Closer(kinds, k, |kinds|) == |kinds|
    decreases |kinds| - i
  {
    if i < |kinds| && !kinds[i].Open? { UnchangedFrom(kinds, i + 1); }
  }

  /** The text is returned unchanged exactly when its first opener, if it has one, is never closed. */
  lemma UnchangedExactly(kinds: seq<Kind>)
    ensures var first := FirstOpener(kinds, 0);
      Rendered(kinds) == Unchanged(kinds) <==> first == |kinds| || Closer(kinds, first, |kinds|) == |kinds|
  {
    UnchangedFrom(kinds, 0);
  }

  /** With no closed container at all, the text is unchanged. */
  lemma NothingClosed(kinds: seq<Kind>)
    requires forall i: nat :: i < |kinds| && kinds[i].Open? ==> Closer(kinds, i, |kinds|) == |kinds|
    ensures Rendered(kinds) == Unchanged(kinds)
  {
    UnchangedExactly(kinds);
  }

  // ---------------------------------------------------------------- which containers are rendered

  /** How many containers are open at line p, counting from line i with so many open. */
  function Level(kinds: seq<Kind>, i: nat, p: nat, open: nat): nat
    requires i <= p <= |kinds|
    decreases p - i
  {
    if i == p then open
    else match kinds[i]
      case Plain => Level(kinds, i + 1, p, open)
      case Open(_) => Level(kinds, i + 1, p, open + 1)
      case Close => Level(kinds, i + 1, p, if open == 0 then 0 else open - 1)
  }

  /** Every opener from line i up to p is closed. */
  predicate AllClosed(kinds: seq<Kind>, i: nat, p: nat)
    requires p <= |kinds|
  {
    forall q: nat :: i <= q < p && kinds[q].Open? ==> Closer(kinds, q, |kinds|) < |kinds|
  }

  /** Where several open containers are all closed, so are fewer. */
  lemma {:induction false} FewerClose(kinds: seq<Kind>, j: nat, nested: nat)
    requires j <= |kinds| && nested > 1 && Closing(kinds, j, |kinds|, nested) < |kinds|
    ensures Closing(kinds, j, |kinds|, nested - 1) < |kinds| && Closing(kinds, j, |kinds|, 1) < |kinds|
    decreases |kinds| - j, nested
  {
    match kinds[j] {
      case Plain => FewerClose(kinds, j + 1, nested);
      case Open(_) => FewerClose(kinds, j + 1, nested + 1);
      case Close => if nested > 2 { FewerClose(kinds, j + 1, nested - 1); }
    }
    if nested > 2 { FewerClose(kinds, j, nested - 1); }
  }

  lemma {:induction false} NothingBefore(out: Out, i: nat, p: nat)
    requires InOrder(out, i) && p < i
    ensures !Appears(out, p)
  {
    if out.Line? { NothingBefore(out.rest, if out.what.Source? then out.what.line + 1 else i, p); }
  }

  /** With every open container closed, an unclosed opener can only stand in none. */
  lemma {:induction false} WalkDrops(kinds: seq<Kind>, i: nat, p: nat, open: nat)
    requires i <= p < |kinds| && kinds[p].Open? && Closer(kinds, p, |kinds|) < |kinds|
    requires open > 0 ==> Closing(kinds, i, |kinds|, open) < |kinds|
    ensures !Appears(Walk(kinds, i, |kinds|, open, End), p) <==> AllClosed(kinds, i, p) && Level(kinds, i, p, open) < DEEPEST
    decreases p - i
  {
    var n := |kinds|;
    var next := match kinds[i] case Plain => open case Open(_) => open + 1 case Close => if open == 0 then 0 else open - 1;
    if i == p {
      WalkKeepsLines(kinds, i + 1, n, next);
      NothingBefore(Walk(kinds, i + 1, n, next, End), i + 1, p);
    } else if kinds[i].Open? && open == 0 && Closer(kinds, i, n) == n {
      RawInOrder(i, n);
    } else {
      if kinds[i].Open? && open > 0 { FewerClose(kinds, i + 1, open + 1); }
      WalkDrops(kinds, i + 1, p, next);
      assert AllClosed(kinds, i, p) <==> AllClosed(kinds, i + 1, p);
    }
  }

  /**
   A complete container is rendered, its opener dropped, exactly when no opener before it is left
   unclosed and it stands less than sixteen deep; otherwise it stays as it is.
   */
  lemma RenderedExactly(kinds: seq<Kind>, p: nat)
    requires p < |kinds| && kinds[p].Open? && Closer(kinds, p, |kinds|) < |kinds|
    ensures !Appears(Said(Rendered(kinds)), p) <==> AllClosed(kinds, 0, p) && Level(kinds, 0, p, 0) < 16
  {
    RenderIsWalk(kinds);
    WalkDrops(kinds, 0, p, 0);
  }

  /** So behind an unclosed opener every complete container is left as it is. */
  lemma BehindUnclosedLeftRaw(kinds: seq<Kind>, q: nat, p: nat)
    requires q < p < |kinds| && kinds[q].Open? && Closer(kinds, q, |kinds|) == |kinds|
    requires kinds[p].Open? && Closer(kinds, p, |kinds|) < |kinds|
    ensures Appears(Said(Rendered(kinds)), p)
  {
    RenderedExactly(kinds, p);
  }

  /** Such texts exist: two openers and one closer. */
  lemma CompleteContainerLeftRaw()
    ensures var kinds := [Open(Draft), Open(Draft), Close];
      Closer(kinds, 1, 3) == 2 && Closer(kinds, 0, 3) == 3 && Rendered(kinds) == Unchanged(kinds)
  {
    var kinds := [Open(Draft), Open(Draft), Close];
    assert Closing(kinds, 2, 3, 1) == 2;
    assert Closing(kinds, 2, 3, 2) == Closing(kinds, 3, 3, 1) == 3;
    assert Closing(kinds, 1, 3, 1) == Closing(kinds, 2, 3, 2);
  }

  // ---------------------------------------------------------------- the program

  /** The output as the program builds it: lines joined and split again, quoted level by level. */
  datatype Shown = Shown(depth: nat, what: What)

  /** A list of lines, quoted a number of levels deeper, before the rest. */
  function Placed(lines: seq<Shown>, levels: nat, rest: Out): Out {
    if lines == [] then rest
    else Line(lines[0].depth + levels, lines[0].what, Placed(lines[1..], levels, rest))
  }

  lemma {:induction false} PlacedAppend(a: seq<Shown>, b: seq<Shown>, levels: nat, rest: Out)
    ensures Placed(a + b, levels, rest) == Placed(a, levels, Placed(b, levels, rest))
  {
    if a == [] {
      assert a + b == b;
    } else {
      assert (a + b)[0] == a[0] && (a + b)[1..] == a[1..] + b;
      PlacedAppend(a[1..], b, levels, rest);
    }
  }

  lemma PlacedOne(line: Shown, levels: nat, rest: Out)
    ensures Placed([line], levels, rest) == Line(line.depth + levels, line.what, rest)
  {
    assert [line][1..] == [];
  }

  lemma PlacedAfterOne(lines: seq<Shown>, line: Shown, levels: nat, rest: Out)
    ensures Placed(lines + [line], levels, rest) == Placed(lines, levels, Line(line.depth + levels, line.what, rest))
  {
    PlacedAppend(lines, [line], levels, rest);
    PlacedOne(line, levels, rest);
  }

  /** lines[start:end] */
  method Copy(start: nat, end: nat, ghost depth: nat, ghost rest: Out) returns (lines: seq<Shown>)
    requires start <= end
    ensures Placed(lines, depth, rest) == Raw(start, end, depth, rest) && |lines| == end - start
  {
    lines := [];
    var k := end;
    while k > start
      invariant start <= k <= end && |lines| == end - k
      invariant Placed(lines, depth, rest) == Raw(k, end, depth, rest)
    {
      k := k - 1;
      assert ([Shown(0, Source(k))] + lines)[1..] == lines;
      lines := [Shown(0, Source(k))] + lines;
    }
  }

  /** The scan for an opener's closer; -1 if there is none. */
  method FindCloser(kinds: seq<Kind>, i: nat, end: nat) returns (closing: int)
    requires i < end <= |kinds|
    ensures if Closer(kinds, i, end) == end then closing == -1 else closing == Closer(kinds, i, end)
  {
    var nested := 1;
    var j := i + 1;
    while j < end
      invariant i < j <= end && nested > 0
      invariant Closer(kinds, i, end) == Closing(kinds, j, end, nested)
    {
      match kinds[j] {
        case Plain =>
        case Open(_) =>
          nested := nested + 1;
        case Close =>
          nested := nested - 1;
          if nested == 0 { return j; }
      }
      j := j + 1;
    }
    return -1;
  }

  /** Each line of a rendered inside, quoted; an empty inside is one empty line. */
  method QuoteLines(inside: seq<Shown>, ghost depth: nat, ghost rest: Out) returns (lines: seq<Shown>)
    ensures Placed(lines, depth, rest) ==
      if inside == [] then Line(depth + 1, Blank, rest) else Placed(inside, depth + 1, rest)
  {
    if inside == [] {
      PlacedOne(Shown(1, Blank), depth, rest);
      return [Shown(1, Blank)];
    }
    lines := [];
    var k := |inside|;
    while k > 0
      invariant 0 <= k <= |inside|
      invariant Placed(lines, depth, rest) == Placed(inside[k..], depth + 1, rest)
    {
      k := k - 1;
      assert inside[k..][1..] == inside[k + 1..];
      var line := Shown(inside[k].depth + 1, inside[k].what);
      assert ([line] + lines)[1..] == lines;
      lines := [line] + lines;
    }
    assert inside[0..] == inside;
  }

  method RenderLines(kinds: seq<Kind>, start: nat, end: nat, depth: nat, ghost rest: Out) returns (lines: seq<Shown>)
    requires start <= end <= |kinds|
    ensures Placed(lines, depth, rest) == Render(kinds, start, end, depth, rest)
    ensures lines == [] <==> start == end
    decreases end - start, 2
  {
    if depth >= DEEPEST {
      lines := Copy(start, end, depth, rest);
      return;
    }
    lines := [];
    var i := start;
    while i < end
      invariant start <= i <= end && (lines == [] <==> i == start)
      invariant Placed(lines, depth, Render(kinds, i, end, depth, rest)) == Render(kinds, start, end, depth, rest)
      decreases end - i
    {
      var shown, next := RenderItem(kinds, i, end, depth, rest);
      PlacedAppend(lines, shown, depth, Render(kinds, next, end, depth, rest));
      lines, i := lines + shown, next;
    }
  }

  /** A line that opens no container, the whole rest behind an unclosed opener, or a container. */
  method RenderItem(kinds: seq<Kind>, i: nat, end: nat, depth: nat, ghost rest: Out) returns (lines: seq<Shown>, next: nat)
    requires i < end <= |kinds| && depth < DEEPEST
    ensures i < next <= end && lines != []
    ensures Placed(lines, depth, Render(kinds, next, end, depth, rest)) == Render(kinds, i, end, depth, rest)
    decreases end - i, 1
  {
    if !kinds[i].Open? {
      PlacedOne(Shown(0, Source(i)), depth, Render(kinds, i + 1, end, depth, rest));
      return [Shown(0, Source(i))], i + 1;
    }
    var closing := FindCloser(kinds, i, end);
    if closing < 0 {
      lines := Copy(i, end, depth, rest);
      return lines, end;
    }
    lines := RenderContainer(kinds, i, closing, end, depth, rest);
    return lines, closing + 1;
  }

  /** A closed container: its label, its inside one level deeper and quoted, and an empty line. */
  method RenderContainer(kinds: seq<Kind>, i: nat, j: nat, end: nat, depth: nat, ghost rest: Out) returns (lines: seq<Shown>)
    requires i < j < end <= |kinds| && depth < DEEPEST && kinds[i].Open? && Closer(kinds, i, end) == j
    ensures Placed(lines, depth, Render(kinds, j + 1, end, depth, rest)) == Render(kinds, i, end, depth, rest) && lines != []
    decreases end - i, 0
  {
    ghost var after := Line(depth, Blank, Render(kinds, j + 1, end, depth, rest));
    var inside := RenderLines(kinds, i + 1, j, depth + 1, after);
    var quoted := QuoteLines(inside, depth, after);
    lines := [Shown(0, Blank), Shown(0, Title(kinds[i].variant)), Shown(0, Blank)] + quoted + [Shown(0, Blank)];
    ContainerPlaced(kinds[i].variant, quoted, depth, Render(kinds, j + 1, end, depth, rest));
  }

  lemma ContainerPlaced(variant: Variant, quoted: seq<Shown>, depth: nat, rest: Out)
    ensures Placed([Shown(0, Blank), Shown(0, Title(variant)), Shown(0, Blank)] + quoted + [Shown(0, Blank)], depth, rest)
      == Heading(variant, depth, Placed(quoted, depth, Line(depth, Blank, rest)))
  {
    var head := [Shown(0, Blank), Shown(0, Title(variant)), Shown(0, Blank)];
    var after := Line(depth, Blank, rest);
    PlacedAfterOne(head + quoted, Shown(0, Blank), depth, rest);
    PlacedAppend(head, quoted, depth, after);
    assert head[1..] == [Shown(0, Title(variant)), Shown(0, Blank)];
    assert [Shown(0, Title(variant)), Shown(0, Blank)][1..] == [Shown(0, Blank)];
    PlacedOne(Shown(0, Blank), depth, Placed(quoted, depth, after));
  }

  /** renderWritingBlocks, once its lines are classified. */
  method RenderWritingBlocks(kinds: seq<Kind>) returns (lines: seq<Shown>)
    ensures Placed(lines, 0, End) == Rendered(kinds)
    ensures Said(Placed(lines, 0, End)) == Walk(kinds, 0, |kinds|, 0, End)
  {
    lines := RenderLines(kinds, 0, |kinds|, 0, End);
    RenderIsWalk(kinds);
  }

  // ---------------------------------------------------------------- code lines

  /** A stretch of the text that the Markdown parser calls code. */
  datatype Segment = Segment(start: nat, stop: nat)

  /** Lines begin at strictly increasing positions, the first at 0. */
  predicate Starts(starts: seq<nat>) {
    starts != [] && starts[0] == 0 && forall i, j :: 0 <= i < j < |starts| ==> starts[i] < starts[j]
  }

  /** The line overlaps the segment: it begins before its end, and the next line after its start. */
  predicate Overlaps(starts: seq<nat>, l: nat, s: Segment)
    requires l < |starts|
  {
    starts[l] < s.stop && (l + 1 < |starts| ==> starts[l + 1] > s.start)
  }

  /** sort.Search for the line holding a position. */
  method LineAt(starts: array<nat>, position: nat) returns (l: nat)
    requires Starts(starts[..])
    ensures l < starts.Length && starts[l] <= position && (l + 1 < starts.Length ==> starts[l + 1] > position)
  {
    var low, high := 0, starts.Length;
    assert starts[..][0] == starts[0];
    while low < high
      invariant 0 <= low <= high <= starts.Length
      invariant forall k :: 0 <= k < low ==> starts[k] <= position
      invariant forall k :: high <= k < starts.Length ==> starts[k] > position
    {
      var mid := (low + high) / 2;
      assert forall k :: 0 <= k < starts.Length ==> starts[..][k] == starts[k];
      if starts[mid] > position { high := mid; } else { low := mid + 1; }
    }
    l := low - 1;
  }

  /** Marks exactly the lines that overlap a segment of code. */
  method MarkCode(starts: array<nat>, code: array<bool>, segments: seq<Segment>)
    requires Starts(starts[..]) && code.Length == starts.Length && forall l :: 0 <= l < code.Length ==> !code[l]
    modifies code
    ensures forall l :: 0 <= l < code.Length ==> (code[l] <==> exists s :: s in segments && Overlaps(starts[..], l, s))
  {
    for k := 0 to |segments|
      invariant forall l :: 0 <= l < code.Length ==> (code[l] <==> exists s :: s in segments[..k] && Overlaps(starts[..], l, s))
    {
      ghost var before := code[..];
      MarkSegment(starts, code, segments[k]);
      assert segments[..k + 1] == segments[..k] + [segments[k]];
      forall l | 0 <= l < code.Length
        ensures code[l] <==> exists s :: s in segments[..k + 1] && Overlaps(starts[..], l, s)
      {
        assert code[l] <==> before[l] || Overlaps(starts[..], l, segments[k]);
      }
    }
    assert segments[..|segments|] == segments;
  }

  method MarkSegment(starts: array<nat>, code: array<bool>, segment: Segment)
    requires Starts(starts[..]) && code.Length == starts.Length
    modifies code
    ensures forall l :: 0 <= l < code.Length ==> (code[l] <==> old(code[l]) || Overlaps(starts[..], l, segment))
  {
    var first := LineAt(starts, segment.start);
    var line := first;
    assert forall k :: 0 <= k < starts.Length ==> starts[..][k] == starts[k];
    while line < starts.Length && starts[line] < segment.stop
      invariant first <= line <= starts.Length
      invariant forall l :: 0 <= l < code.Length ==> (code[l] <==> old(code[l]) || (first <= l < line))
      invariant forall l :: first <= l < line ==> starts[l] < segment.stop
    {
      code[line] := true;
      line := line + 1;
    }
  }
}
