/**
 Splitting oversized messages (pkg/connector/splitting.go): splitPlain, splitHTML and
 presentationEdit. JSON encoding and HTML conversion are given by a coding: what a character
 costs inside a JSON string, what the rest of a plain message costs, the size of a message made
 from markup, and its plain body.
 */
module Splitting {
  import opened Journal

  const LIMIT: nat := 40 * 1024
  const EVENT: nat := 64 * 1024
  const DEEPEST: nat := 64

  datatype Token = Start(tag: string, attributes: string) | Stop(tag: string) | Void(tag: string, attributes: string) | Chars(text: string)

  /** cost: bytes of a character in JSON. frame: bytes around a plain body. */
  datatype Coding = Coding(cost: char -> nat, frame: nat, bytes: seq<Token> -> nat, plain: seq<Token> -> string)

  /** A character takes at least one byte and at most six, and the frame leaves room for one. */
  ghost predicate Sane(c: Coding) {
    (forall r: char :: 1 <= c.cost(r) <= 6) && c.frame + 6 <= LIMIT
  }

  // ---------------------------------------------------------------- plain text

  function Weight(c: Coding, body: string): nat {
    if body == "" then 0 else c.cost(body[0]) + Weight(c, body[1..])
  }

  predicate FitsPlain(c: Coding, body: string) {
    c.frame + Weight(c, body) <= LIMIT
  }

  lemma {:induction false} WeightBounds(c: Coding, body: string)
    requires Sane(c)
    ensures |body| <= Weight(c, body) <= 6 * |body|
  {
    if body != "" { WeightBounds(c, body[1..]); }
  }

  /** The longest body that is never split, whatever its characters. */
  function NeverSplit(c: Coding): nat
    requires c.frame <= LIMIT
  {
    (LIMIT - c.frame) / 6
  }

  /** A body that is split is longer than that, so both halves have some of it. */
  lemma SplitIsLong(c: Coding, body: string)
    requires Sane(c) && !FitsPlain(c, body)
    ensures |body| > NeverSplit(c) >= 1
  {
    WeightBounds(c, body);
  }

  function SplitPlain(c: Coding, body: string): seq<string>
    requires Sane(c)
    decreases |body|
  {
    if FitsPlain(c, body) then [body]
    else
      SplitIsLong(c, body);
      var mid := |body| / 2;
      SplitPlain(c, body[..mid]) + SplitPlain(c, body[mid..])
  }

  function Join(parts: seq<string>): string {
    if parts == [] then "" else parts[0] + Join(parts[1..])
  }

  lemma {:induction false} JoinAppend(a: seq<string>, b: seq<string>)
    ensures Join(a + b) == Join(a) + Join(b)
  {
    if a == [] {
      assert a + b == b;
    } else {
      assert (a + b)[0] == a[0] && (a + b)[1..] == a[1..] + b;
      JoinAppend(a[1..], b);
      assert a[0] + (Join(a[1..]) + Join(b)) == (a[0] + Join(a[1..])) + Join(b);
    }
  }

  /** Nothing is lost, repeated or moved, every part fits, and what fits is left whole. */
  lemma {:induction false} PlainKeepsText(c: Coding, body: string)
    requires Sane(c)
    ensures Join(SplitPlain(c, body)) == body
    ensures forall p :: p in SplitPlain(c, body) ==> FitsPlain(c, p)
    ensures |SplitPlain(c, body)| == 1 <==> FitsPlain(c, body)
    decreases |body|
  {
    if FitsPlain(c, body) {
      assert [body][1..] == [] && body + "" == body;
    } else {
      SplitIsLong(c, body);
      var mid := |body| / 2;
      PlainKeepsText(c, body[..mid]);
      PlainKeepsText(c, body[mid..]);
      JoinAppend(SplitPlain(c, body[..mid]), SplitPlain(c, body[mid..]));
      assert body[..mid] + body[mid..] == body;
    }
  }

  /** The least length of a part of a body that was split. */
  function Half(c: Coding): nat
    requires c.frame <= LIMIT
  {
    (NeverSplit(c) + 1) / 2
  }

  /**
   The number of parts is linear in the length: either the body is one part, or every part has
   about half the length that is never split.
   */
  lemma {:induction false} PartsAreFew(c: Coding, body: string)
    requires Sane(c)
    ensures var parts := SplitPlain(c, body);
      |parts| >= 1 && (|parts| > 1 ==> (forall p :: p in parts ==> |p| >= Half(c)) && |parts| * Half(c) <= |body|)
    decreases |body|
  {
    if !FitsPlain(c, body) {
      SplitIsLong(c, body);
      var mid := |body| / 2;
      var left, right := body[..mid], body[mid..];
      PartsAreFew(c, left);
      PartsAreFew(c, right);
      SomeParts(c, left);
      SomeParts(c, right);
      TwoHalves(Half(c), SplitPlain(c, left), SplitPlain(c, right), |left|, |right|);
    }
  }

  lemma TwoHalves(h: nat, a: seq<string>, b: seq<string>, m: nat, n: nat)
    requires |a| * h <= m && forall p :: p in a ==> |p| >= h
    requires |b| * h <= n && forall p :: p in b ==> |p| >= h
    ensures |a + b| * h <= m + n && forall p :: p in a + b ==> |p| >= h
  {
    assert (|a| + |b|) * h == |a| * h + |b| * h;
  }

  lemma SomeParts(c: Coding, body: string)
    requires Sane(c) && |body| >= Half(c)
    requires var parts := SplitPlain(c, body);
      |parts| >= 1 && (|parts| > 1 ==> (forall p :: p in parts ==> |p| >= Half(c)) && |parts| * Half(c) <= |body|)
    ensures var parts := SplitPlain(c, body);
      |parts| * Half(c) <= |body| && forall p :: p in parts ==> |p| >= Half(c)
  {
    if |SplitPlain(c, body)| == 1 {
      PlainKeepsText(c, body);
      var parts := SplitPlain(c, body);
      assert parts == [parts[0]] && parts[1..] == [] && parts[0] + "" == parts[0];
      assert parts[0] == body;
    }
  }

  // ---------------------------------------------------------------- encrypted events and edits

  /** base64.StdEncoding.EncodedLen, with the headroom the tests allow on both sides of it. */
  function Encrypted(bytes: nat): nat {
    (bytes + 2048 + 2) / 3 * 4 + 2048
  }

  /** An edit carries its new content, a frame of its own, and a legacy copy for old clients. */
  datatype Edit = Edit(content: nat, frame: nat, legacy: nat)

  function EditBytes(e: Edit): nat { e.content + e.frame + e.legacy }

  /** The size of the legacy text "* Updated message" with no formatted body. */
  const NOTE: nat := 17

  /** An edit over the limit drops its legacy copy, and nothing else. */
  function Edited(content: nat, frame: nat, legacy: nat): Edit {
    Edit(content, frame, if content + frame + legacy > LIMIT then NOTE else legacy)
  }

  method PresentationEdit(content: nat, frame: nat, legacy: nat) returns (edit: Edit)
    ensures edit == Edited(content, frame, legacy)
    ensures edit.content == content && edit.frame == frame
    ensures edit.legacy != legacy ==> edit.legacy == NOTE && content + frame + legacy > LIMIT
  {
    edit := Edit(content, frame, legacy);
    if EditBytes(edit) > LIMIT { edit := edit.(legacy := NOTE); }
  }

  /** A message within the limit fits its encrypted event. */
  lemma EventsFit(content: nat)
    ensures content <= LIMIT ==> Encrypted(content) < EVENT
  {
  }

  /** Whatever is edited, its edit fits too, exactly as long as the edit's own frame leaves it room. */
  lemma EditsFitExactly(frame: nat)
    ensures (forall content: nat, legacy: nat :: content <= LIMIT ==> Encrypted(EditBytes(Edited(content, frame, legacy))) < EVENT)
      <==> frame + NOTE <= 4605
  {
    if frame + NOTE > 4605 {
      assert Edited(LIMIT, frame, 1) == Edit(LIMIT, frame, NOTE);
      assert Encrypted(EditBytes(Edited(LIMIT, frame, 1))) >= EVENT;
    }
  }

  // ---------------------------------------------------------------- markup

  datatype Node = Text(text: string) | Element(tag: string, attributes: string, children: seq<Node>) | Empty(tag: string, attributes: string)

  function Render(nodes: seq<Node>): seq<Token>
    decreases nodes
  {
    if nodes == [] then [] else RenderNode(nodes[0]) + Render(nodes[1..])
  }

  function RenderNode(node: Node): seq<Token>
    decreases node, 0
  {
    match node
    case Text(text) => [Chars(text)]
    case Empty(tag, attributes) => [Void(tag, attributes)]
    case Element(tag, attributes, children) => [Start(tag, attributes)] + Render(children) + [Stop(tag)]
  }

  function TextOf(nodes: seq<Node>): string
    decreases nodes
  {
    if nodes == [] then "" else NodeText(nodes[0]) + TextOf(nodes[1..])
  }

  function NodeText(node: Node): string
    decreases node, 0
  {
    match node
    case Text(text) => text
    case Empty(_, _) => ""
    case Element(_, _, children) => TextOf(children)
  }

  /** Reads markup with the tags open so far, innermost first; None at a tag that closes another. */
  function Read(tokens: seq<Token>, open: seq<string>): Option<seq<string>> {
    if tokens == [] then Some(open)
    else match tokens[0]
      case Start(tag, _) => Read(tokens[1..], [tag] + open)
      case Stop(tag) => if open != [] && open[0] == tag then Read(tokens[1..], open[1..]) else None
      case _ => Read(tokens[1..], open)
  }

  lemma {:induction false} ReadAppend(a: seq<Token>, b: seq<Token>, open: seq<string>)
    ensures Read(a + b, open) == if Read(a, open).Some? then Read(b, Read(a, open).value) else None
  {
    if a == [] {
      assert a + b == b;
    } else {
      assert (a + b)[0] == a[0] && (a + b)[1..] == a[1..] + b;
      match a[0] {
        case Start(tag, _) => ReadAppend(a[1..], b, [tag] + open);
        case Stop(tag) => if open != [] && open[0] == tag { ReadAppend(a[1..], b, open[1..]); }
        case _ => ReadAppend(a[1..], b, open);
      }
    }
  }

  /** Rendered nodes leave open what was open. */
  lemma {:induction false} RenderedIsBalanced(nodes: seq<Node>, open: seq<string>)
    ensures Read(Render(nodes), open) == Some(open)
    decreases nodes
  {
    if nodes != [] {
      NodeIsBalanced(nodes[0], open);
      RenderedIsBalanced(nodes[1..], open);
      ReadAppend(RenderNode(nodes[0]), Render(nodes[1..]), open);
    }
  }

  lemma {:induction false} NodeIsBalanced(node: Node, open: seq<string>)
    ensures Read(RenderNode(node), open) == Some(open)
    decreases node, 0
  {
    match node {
      case Text(text) => assert [Chars(text)][1..] == [];
      case Empty(tag, attributes) => assert [Void(tag, attributes)][1..] == [];
      case Element(tag, attributes, children) =>
        var start, inside, stop := [Start(tag, attributes)], Render(children), [Stop(tag)];
        RenderedIsBalanced(children, [tag] + open);
        ReadAppend(start + inside, stop, open);
        ReadAppend(start, inside, open);
        assert start[1..] == [] && stop[1..] == [] && ([tag] + open)[1..] == open;
    }
  }

  // ---------------------------------------------------------------- splitting markup

  datatype Part = Markup(tokens: seq<Token>) | Plain(text: string)

  function TokenSize(token: Token): nat {
    match token
    case Start(tag, attributes) => |tag| + |attributes| + 2
    case Stop(tag) => |tag| + 3
    case Void(tag, attributes) => |tag| + |attributes| + 3
    case Chars(text) => |text|
  }

  function Size(tokens: seq<Token>): nat {
    if tokens == [] then 0 else TokenSize(tokens[0]) + Size(tokens[1..])
  }

  function Whole(prefix: seq<Token>, nodes: seq<Node>, suffix: seq<Token>): seq<Token> {
    prefix + Render(nodes) + suffix
  }

  /** What splitHTML makes of some nodes: pieces kept as markup, and pieces given up as plain text. */
  datatype Piece = Piece(prefix: seq<Token>, nodes: seq<Node>, suffix: seq<Token>, kept: bool)

  function Pieces(c: Coding, nodes: seq<Node>, prefix: seq<Token>, suffix: seq<Token>, depth: nat): seq<Piece>
    decreases DEEPEST + 2 - depth
  {
    if c.bytes(Whole(prefix, nodes, suffix)) <= LIMIT then [Piece(prefix, nodes, suffix, true)]
    else if depth > DEEPEST || Size(prefix) + Size(suffix) > LIMIT / 2 then [Piece(prefix, nodes, suffix, false)]
    else if |nodes| > 1 then
      var mid := |nodes| / 2;
      Pieces(c, nodes[..mid], prefix, suffix, depth + 1) + Pieces(c, nodes[mid..], prefix, suffix, depth + 1)
    else if |nodes| == 1 && nodes[0].Text? && |nodes[0].text| > 1 then
      var mid := |nodes[0].text| / 2;
      Pieces(c, [Text(nodes[0].text[..mid])], prefix, suffix, depth + 1)
      + Pieces(c, [Text(nodes[0].text[mid..])], prefix, suffix, depth + 1)
    else if |nodes| == 1 && nodes[0].Element? && nodes[0].children != [] then
      Pieces(c, nodes[0].children, prefix + [Start(nodes[0].tag, nodes[0].attributes)], [Stop(nodes[0].tag)] + suffix, depth + 1)
    else [Piece(prefix, nodes, suffix, false)]
  }

  function PartsOf(c: Coding, piece: Piece): seq<Part>
    requires Sane(c)
  {
    var whole := Whole(piece.prefix, piece.nodes, piece.suffix);
    if piece.kept then [Markup(whole)] else Plains(SplitPlain(c, c.plain(whole)))
  }

  function Plains(texts: seq<string>): (parts: seq<Part>)
    ensures |parts| == |texts| && forall k :: 0 <= k < |parts| ==> parts[k] == Plain(texts[k])
  {
    seq(|texts|, k requires 0 <= k < |texts| => Plain(texts[k]))
  }

  function Parts(c: Coding, pieces: seq<Piece>): seq<Part>
    requires Sane(c)
  {
    if pieces == [] then [] else PartsOf(c, pieces[0]) + Parts(c, pieces[1..])
  }

  function PiecesText(pieces: seq<Piece>): string {
    if pieces == [] then "" else TextOf(pieces[0].nodes) + PiecesText(pieces[1..])
  }

  // ---------------------------------------------------------------- what the pieces hold

  /** A character, an empty element, or that an element has no content, with the tags around it, outermost first. */
  datatype Mark = Glyph(letter: char) | Hollow(tag: string, attributes: string) | Bare
  datatype Leaf = Leaf(around: seq<Token>, mark: Mark)

  function Letters(around: seq<Token>, text: string): seq<Leaf> {
    if text == "" then [] else [Leaf(around, Glyph(text[0]))] + Letters(around, text[1..])
  }

  function Leaves(around: seq<Token>, nodes: seq<Node>): seq<Leaf>
    decreases nodes
  {
    if nodes == [] then [] else NodeLeaves(around, nodes[0]) + Leaves(around, nodes[1..])
  }

  function NodeLeaves(around: seq<Token>, node: Node): seq<Leaf>
    decreases node, 0
  {
    match node
    case Text(text) => Letters(around, text)
    case Empty(tag, attributes) => [Leaf(around, Hollow(tag, attributes))]
    case Element(tag, attributes, children) =>
      var inside := around + [Start(tag, attributes)];
      if children == [] then [Leaf(inside, Bare)] else Leaves(inside, children)
  }

  function PiecesLeaves(pieces: seq<Piece>): seq<Leaf> {
    if pieces == [] then [] else Leaves(pieces[0].prefix, pieces[0].nodes) + PiecesLeaves(pieces[1..])
  }

  function Glyphs(leaves: seq<Leaf>): string {
    if leaves == [] then "" else (if leaves[0].mark.Glyph? then [leaves[0].mark.letter] else "") + Glyphs(leaves[1..])
  }

  lemma {:induction false} GlyphsAppend(a: seq<Leaf>, b: seq<Leaf>)
    ensures Glyphs(a + b) == Glyphs(a) + Glyphs(b)
  {
    if a == [] {
      assert a + b == b;
    } else {
      var first := if a[0].mark.Glyph? then [a[0].mark.letter] else "";
      assert (a + b)[0] == a[0] && (a + b)[1..] == a[1..] + b;
      GlyphsAppend(a[1..], b);
      assert first + (Glyphs(a[1..]) + Glyphs(b)) == (first + Glyphs(a[1..])) + Glyphs(b);
    }
  }

  lemma {:induction false} GlyphsOfText(around: seq<Token>, text: string)
    ensures Glyphs(Letters(around, text)) == text
  {
    if text != "" {
      GlyphsOfText(around, text[1..]);
      assert Letters(around, text)[1..] == Letters(around, text[1..]);
      assert [text[0]] + text[1..] == text;
    }
  }

  lemma {:induction false} GlyphsOfNodes(around: seq<Token>, nodes: seq<Node>)
    ensures Glyphs(Leaves(around, nodes)) == TextOf(nodes)
    decreases nodes
  {
    if nodes != [] {
      GlyphsOfNode(around, nodes[0]);
      GlyphsOfNodes(around, nodes[1..]);
      GlyphsAppend(NodeLeaves(around, nodes[0]), Leaves(around, nodes[1..]));
    }
  }

  lemma {:induction false} GlyphsOfNode(around: seq<Token>, node: Node)
    ensures Glyphs(NodeLeaves(around, node)) == NodeText(node)
    decreases node, 0
  {
    match node {
      case Text(text) => GlyphsOfText(around, text);
      case Empty(tag, attributes) => assert NodeLeaves(around, node)[1..] == [];
      case Element(tag, attributes, children) =>
        if children == [] {
          assert NodeLeaves(around, node)[1..] == [];
        } else {
          GlyphsOfNodes(around + [Start(tag, attributes)], children);
        }
    }
  }

  lemma {:induction false} GlyphsOfPieces(pieces: seq<Piece>)
    ensures Glyphs(PiecesLeaves(pieces)) == PiecesText(pieces)
  {
    if pieces != [] {
      GlyphsOfNodes(pieces[0].prefix, pieces[0].nodes);
      GlyphsOfPieces(pieces[1..]);
      GlyphsAppend(Leaves(pieces[0].prefix, pieces[0].nodes), PiecesLeaves(pieces[1..]));
    }
  }

  lemma {:induction false} PiecesLeavesAppend(a: seq<Piece>, b: seq<Piece>)
    ensures PiecesLeaves(a + b) == PiecesLeaves(a) + PiecesLeaves(b)
  {
    if a == [] {
      assert a + b == b;
    } else {
      var first := Leaves(a[0].prefix, a[0].nodes);
      assert (a + b)[0] == a[0] && (a + b)[1..] == a[1..] + b;
      PiecesLeavesAppend(a[1..], b);
      assert first + (PiecesLeaves(a[1..]) + PiecesLeaves(b)) == (first + PiecesLeaves(a[1..])) + PiecesLeaves(b);
    }
  }

  lemma {:induction false} LeavesAppend(around: seq<Token>, a: seq<Node>, b: seq<Node>)
    ensures Leaves(around, a + b) == Leaves(around, a) + Leaves(around, b)
  {
    if a == [] {
      assert a + b == b;
    } else {
      var first := NodeLeaves(around, a[0]);
      assert (a + b)[0] == a[0] && (a + b)[1..] == a[1..] + b;
      LeavesAppend(around, a[1..], b);
      assert first + (Leaves(around, a[1..]) + Leaves(around, b)) == (first + Leaves(around, a[1..])) + Leaves(around, b);
    }
  }

  lemma {:induction false} LettersAppend(around: seq<Token>, a: string, b: string)
    ensures Letters(around, a + b) == Letters(around, a) + Letters(around, b)
  {
    if a == "" {
      assert a + b == b;
    } else {
      var first := [Leaf(around, Glyph(a[0]))];
      assert (a + b)[0] == a[0] && (a + b)[1..] == a[1..] + b;
      LettersAppend(around, a[1..], b);
      assert first + (Letters(around, a[1..]) + Letters(around, b)) == (first + Letters(around, a[1..])) + Letters(around, b);
    }
  }

  lemma LeavesOfOne(around: seq<Token>, node: Node)
    ensures Leaves(around, [node]) == NodeLeaves(around, node)
  {
    assert [node][1..] == [] && NodeLeaves(around, node) + [] == NodeLeaves(around, node);
  }

  lemma OnePiece(piece: Piece)
    ensures PiecesLeaves([piece]) == Leaves(piece.prefix, piece.nodes)
  {
    assert [piece][1..] == [] && Leaves(piece.prefix, piece.nodes) + [] == Leaves(piece.prefix, piece.nodes);
  }

  /**
   Every character and every empty element is in exactly one piece, in order, within exactly the
   tags it was within: what is divided keeps its markup.
   */
  lemma {:induction false} PiecesKeepLeaves(c: Coding, nodes: seq<Node>, prefix: seq<Token>, suffix: seq<Token>, depth: nat)
    ensures PiecesLeaves(Pieces(c, nodes, prefix, suffix, depth)) == Leaves(prefix, nodes)
    decreases DEEPEST + 2 - depth, 1
  {
    OnePiece(Piece(prefix, nodes, suffix, true));
    OnePiece(Piece(prefix, nodes, suffix, false));
    if c.bytes(Whole(prefix, nodes, suffix)) > LIMIT && depth <= DEEPEST && Size(prefix) + Size(suffix) <= LIMIT / 2 {
      if |nodes| > 1 {
        var mid := |nodes| / 2;
        HalvesKeepLeaves(c, nodes[..mid], nodes[mid..], prefix, suffix, depth + 1);
        assert nodes[..mid] + nodes[mid..] == nodes;
      } else if |nodes| == 1 {
        assert nodes == [nodes[0]];
        LeavesOfOne(prefix, nodes[0]);
        SingleKeepsLeaves(c, nodes[0], prefix, suffix, depth);
      }
    }
  }

  lemma {:induction false} HalvesKeepLeaves(c: Coding, left: seq<Node>, right: seq<Node>, prefix: seq<Token>, suffix: seq<Token>, depth: nat)
    requires depth <= DEEPEST + 1
    ensures PiecesLeaves(Pieces(c, left, prefix, suffix, depth) + Pieces(c, right, prefix, suffix, depth)) == Leaves(prefix, left + right)
    decreases DEEPEST + 2 - depth, 2
  {
    PiecesKeepLeaves(c, left, prefix, suffix, depth);
    PiecesKeepLeaves(c, right, prefix, suffix, depth);
    PiecesLeavesAppend(Pieces(c, left, prefix, suffix, depth), Pieces(c, right, prefix, suffix, depth));
    LeavesAppend(prefix, left, right);
  }

  lemma {:induction false} SingleKeepsLeaves(c: Coding, node: Node, prefix: seq<Token>, suffix: seq<Token>, depth: nat)
    requires c.bytes(Whole(prefix, [node], suffix)) > LIMIT && depth <= DEEPEST && Size(prefix) + Size(suffix) <= LIMIT / 2
    ensures PiecesLeaves(Pieces(c, [node], prefix, suffix, depth)) == NodeLeaves(prefix, node)
    decreases DEEPEST + 2 - depth, 0
  {
    if node.Text? && |node.text| > 1 {
      var mid := |node.text| / 2;
      var left, right := [Text(node.text[..mid])], [Text(node.text[mid..])];
      PiecesKeepLeaves(c, left, prefix, suffix, depth + 1);
      PiecesKeepLeaves(c, right, prefix, suffix, depth + 1);
      PiecesLeavesAppend(Pieces(c, left, prefix, suffix, depth + 1), Pieces(c, right, prefix, suffix, depth + 1));
      LeavesOfOne(prefix, left[0]);
      LeavesOfOne(prefix, right[0]);
      LettersAppend(prefix, node.text[..mid], node.text[mid..]);
      assert node.text[..mid] + node.text[mid..] == node.text;
    } else if node.Element? && node.children != [] {
      PiecesKeepLeaves(c, node.children, prefix + [Start(node.tag, node.attributes)], [Stop(node.tag)] + suffix, depth + 1);
    } else {
      OnePiece(Piece(prefix, [node], suffix, false));
      LeavesOfOne(prefix, node);
    }
  }

  /** So the pieces cover the visible text exactly once and in order. */
  lemma PiecesKeepText(c: Coding, nodes: seq<Node>, prefix: seq<Token>, suffix: seq<Token>, depth: nat)
    ensures PiecesText(Pieces(c, nodes, prefix, suffix, depth)) == TextOf(nodes)
  {
    hide Pieces;
    PiecesKeepLeaves(c, nodes, prefix, suffix, depth);
    GlyphsOfPieces(Pieces(c, nodes, prefix, suffix, depth));
    GlyphsOfNodes(prefix, nodes);
  }

  // ---------------------------------------------------------------- what is divided, and what is given up

  /**
   The piece is what some number of divisions come to, each of a whole over the limit: of several nodes
   into halves, of a text into halves, of an element into its children within its tags.
   */
  predicate Divided(c: Coding, nodes: seq<Node>, prefix: seq<Token>, suffix: seq<Token>, divisions: nat, p: Piece)
    decreases divisions
  {
    if divisions == 0 then p.nodes == nodes && p.prefix == prefix && p.suffix == suffix
    else if c.bytes(Whole(prefix, nodes, suffix)) <= LIMIT then false
    else if |nodes| > 1 then
      || Divided(c, nodes[..|nodes| / 2], prefix, suffix, divisions - 1, p)
      || Divided(c, nodes[|nodes| / 2..], prefix, suffix, divisions - 1, p)
    else if |nodes| == 1 && nodes[0].Text? then
      var text := nodes[0].text;
      || Divided(c, [Text(text[..|text| / 2])], prefix, suffix, divisions - 1, p)
      || Divided(c, [Text(text[|text| / 2..])], prefix, suffix, divisions - 1, p)
    else
      && |nodes| == 1 && nodes[0].Element?
      && Divided(c, nodes[0].children, prefix + [Start(nodes[0].tag, nodes[0].attributes)], [Stop(nodes[0].tag)] + suffix, divisions - 1, p)
  }

  /** Nothing, or a single node that is no text of two characters and no element with children. */
  predicate Indivisible(nodes: seq<Node>) {
    |nodes| == 0 ||
    (|nodes| == 1 && !(nodes[0].Text? && |nodes[0].text| > 1) && !(nodes[0].Element? && nodes[0].children != []))
  }

  /** Markup is given up only over the limit, and only too deep, within too large tags, or indivisible. */
  predicate Hopeless(c: Coding, p: Piece, depth: nat) {
    && c.bytes(Whole(p.prefix, p.nodes, p.suffix)) > LIMIT
    && (depth > DEEPEST || Size(p.prefix) + Size(p.suffix) > LIMIT / 2 || Indivisible(p.nodes))
  }

  lemma {:induction false} GivenUpOnlyIfHopeless(c: Coding, nodes: seq<Node>, prefix: seq<Token>, suffix: seq<Token>, depth: nat, p: Piece)
    returns (divisions: nat)
    requires p in Pieces(c, nodes, prefix, suffix, depth)
    ensures Divided(c, nodes, prefix, suffix, divisions, p)
    ensures p.kept || Hopeless(c, p, depth + divisions)
    decreases DEEPEST + 2 - depth
  {
    hide Whole, Size;
    if c.bytes(Whole(prefix, nodes, suffix)) <= LIMIT || depth > DEEPEST || Size(prefix) + Size(suffix) > LIMIT / 2 { return 0; }
    if |nodes| > 1 {
      var mid := |nodes| / 2;
      if p in Pieces(c, nodes[..mid], prefix, suffix, depth + 1) {
        divisions := GivenUpOnlyIfHopeless(c, nodes[..mid], prefix, suffix, depth + 1, p);
      } else {
        divisions := GivenUpOnlyIfHopeless(c, nodes[mid..], prefix, suffix, depth + 1, p);
      }
      return divisions + 1;
    }
    if |nodes| == 1 && nodes[0].Text? && |nodes[0].text| > 1 {
      var mid := |nodes[0].text| / 2;
      if p in Pieces(c, [Text(nodes[0].text[..mid])], prefix, suffix, depth + 1) {
        divisions := GivenUpOnlyIfHopeless(c, [Text(nodes[0].text[..mid])], prefix, suffix, depth + 1, p);
      } else {
        divisions := GivenUpOnlyIfHopeless(c, [Text(nodes[0].text[mid..])], prefix, suffix, depth + 1, p);
      }
      return divisions + 1;
    }
    if |nodes| == 1 && nodes[0].Element? && nodes[0].children != [] {
      divisions := GivenUpOnlyIfHopeless(c, nodes[0].children, prefix + [Start(nodes[0].tag, nodes[0].attributes)],
                                         [Stop(nodes[0].tag)] + suffix, depth + 1, p);
      return divisions + 1;
    }
    return 0;
  }

  ghost predicate Justified(c: Coding, nodes: seq<Node>, p: Piece) {
    exists divisions: nat :: Divided(c, nodes, [], [], divisions, p) && (p.kept || Hopeless(c, p, divisions))
  }

  lemma PiecesAreJustified(c: Coding, nodes: seq<Node>)
    ensures forall p :: p in Pieces(c, nodes, [], [], 0) ==> Justified(c, nodes, p)
  {
    hide Pieces, Divided, Hopeless;
    forall p | p in Pieces(c, nodes, [], [], 0) ensures Justified(c, nodes, p) {
      var divisions := GivenUpOnlyIfHopeless(c, nodes, [], [], 0, p);
    }
  }

  function PowerOfTwo(n: nat): nat {
    if n == 0 then 1 else 2 * PowerOfTwo(n - 1)
  }

  /** Nodes that each fit within these tags, and are not too many for the levels left, are all kept. */
  lemma {:induction false} FittingAreKept(c: Coding, nodes: seq<Node>, prefix: seq<Token>, suffix: seq<Token>, depth: nat)
    requires nodes != [] && depth <= DEEPEST + 1 && |nodes| <= PowerOfTwo(DEEPEST + 1 - depth)
    requires Size(prefix) + Size(suffix) <= LIMIT / 2
    requires forall k :: 0 <= k < |nodes| ==> c.bytes(Whole(prefix, [nodes[k]], suffix)) <= LIMIT
    ensures forall p :: p in Pieces(c, nodes, prefix, suffix, depth) ==> p.kept
    decreases DEEPEST + 2 - depth
  {
    if |nodes| == 1 {
      assert nodes == [nodes[0]];
    } else {
      var mid := |nodes| / 2;
      assert forall k :: 0 <= k < mid ==> nodes[..mid][k] == nodes[k];
      assert forall k :: 0 <= k < |nodes| - mid ==> nodes[mid..][k] == nodes[mid + k];
      FittingAreKept(c, nodes[..mid], prefix, suffix, depth + 1);
      FittingAreKept(c, nodes[mid..], prefix, suffix, depth + 1);
    }
  }

  /** The suffix closes exactly what the prefix opened. */
  predicate Encloses(prefix: seq<Token>, suffix: seq<Token>) {
    Read(prefix, []).Some? && Read(suffix, Read(prefix, []).value) == Some([])
  }

  lemma EnclosesMore(prefix: seq<Token>, suffix: seq<Token>, tag: string, attributes: string)
    requires Encloses(prefix, suffix)
    ensures Encloses(prefix + [Start(tag, attributes)], [Stop(tag)] + suffix)
  {
    var open := Read(prefix, []).value;
    ReadAppend(prefix, [Start(tag, attributes)], []);
    assert [Start(tag, attributes)][1..] == [];
    ReadAppend([Stop(tag)], suffix, [tag] + open);
    assert [Stop(tag)][1..] == [] && ([tag] + open)[1..] == open;
  }

  lemma WholeIsBalanced(prefix: seq<Token>, nodes: seq<Node>, suffix: seq<Token>)
    requires Encloses(prefix, suffix)
    ensures Read(Whole(prefix, nodes, suffix), []) == Some([])
  {
    var open := Read(prefix, []).value;
    RenderedIsBalanced(nodes, open);
    ReadAppend(prefix + Render(nodes), suffix, []);
    ReadAppend(prefix, Render(nodes), []);
  }

  predicate PieceOk(c: Coding, piece: Piece) {
    && Encloses(piece.prefix, piece.suffix)
    && (piece.kept <==> c.bytes(Whole(piece.prefix, piece.nodes, piece.suffix)) <= LIMIT)
  }

  lemma {:induction false} PiecesAreOk(c: Coding, nodes: seq<Node>, prefix: seq<Token>, suffix: seq<Token>, depth: nat)
    requires Encloses(prefix, suffix)
    ensures forall p :: p in Pieces(c, nodes, prefix, suffix, depth) ==> PieceOk(c, p)
    decreases DEEPEST + 2 - depth
  {
    if c.bytes(Whole(prefix, nodes, suffix)) > LIMIT && depth <= DEEPEST && Size(prefix) + Size(suffix) <= LIMIT / 2 {
      if |nodes| > 1 {
        PiecesAreOk(c, nodes[..|nodes| / 2], prefix, suffix, depth + 1);
        PiecesAreOk(c, nodes[|nodes| / 2..], prefix, suffix, depth + 1);
      } else if |nodes| == 1 && nodes[0].Text? && |nodes[0].text| > 1 {
        var mid := |nodes[0].text| / 2;
        PiecesAreOk(c, [Text(nodes[0].text[..mid])], prefix, suffix, depth + 1);
        PiecesAreOk(c, [Text(nodes[0].text[mid..])], prefix, suffix, depth + 1);
      } else if |nodes| == 1 && nodes[0].Element? && nodes[0].children != [] {
        EnclosesMore(prefix, suffix, nodes[0].tag, nodes[0].attributes);
        PiecesAreOk(c, nodes[0].children, prefix + [Start(nodes[0].tag, nodes[0].attributes)], [Stop(nodes[0].tag)] + suffix, depth + 1);
      }
    }
  }

  // ---------------------------------------------------------------- what the parts show

  function CharsOf(tokens: seq<Token>): string {
    if tokens == [] then "" else (if tokens[0].Chars? then tokens[0].text else "") + CharsOf(tokens[1..])
  }

  lemma {:induction false} CharsAppend(a: seq<Token>, b: seq<Token>)
    ensures CharsOf(a + b) == CharsOf(a) + CharsOf(b)
  {
    if a == [] {
      assert a + b == b;
    } else {
      var first := if a[0].Chars? then a[0].text else "";
      assert (a + b)[0] == a[0] && (a + b)[1..] == a[1..] + b;
      CharsAppend(a[1..], b);
      assert first + (CharsOf(a[1..]) + CharsOf(b)) == (first + CharsOf(a[1..])) + CharsOf(b);
    }
  }

  lemma {:induction false} RenderedChars(nodes: seq<Node>)
    ensures CharsOf(Render(nodes)) == TextOf(nodes)
    decreases nodes
  {
    if nodes != [] {
      NodeChars(nodes[0]);
      RenderedChars(nodes[1..]);
      CharsAppend(RenderNode(nodes[0]), Render(nodes[1..]));
    }
  }

  lemma {:induction false} NodeChars(node: Node)
    ensures CharsOf(RenderNode(node)) == NodeText(node)
    decreases node, 0
  {
    match node {
      case Text(text) => assert [Chars(text)][1..] == [] && text + "" == text;
      case Empty(tag, attributes) => assert [Void(tag, attributes)][1..] == [];
      case Element(tag, attributes, children) =>
        var start, inside, stop := [Start(tag, attributes)], Render(children), [Stop(tag)];
        RenderedChars(children);
        CharsAppend(start + inside, stop);
        CharsAppend(start, inside);
        assert start[1..] == [] && stop[1..] == [];
        assert "" + CharsOf(inside) + "" == CharsOf(inside);
    }
  }

  lemma {:induction false} PiecesAreSilent(c: Coding, nodes: seq<Node>, prefix: seq<Token>, suffix: seq<Token>, depth: nat)
    requires CharsOf(prefix) == "" && CharsOf(suffix) == ""
    ensures forall p :: p in Pieces(c, nodes, prefix, suffix, depth) ==> CharsOf(p.prefix) == "" && CharsOf(p.suffix) == ""
    decreases DEEPEST + 2 - depth
  {
    if c.bytes(Whole(prefix, nodes, suffix)) > LIMIT && depth <= DEEPEST && Size(prefix) + Size(suffix) <= LIMIT / 2 {
      if |nodes| > 1 {
        PiecesAreSilent(c, nodes[..|nodes| / 2], prefix, suffix, depth + 1);
        PiecesAreSilent(c, nodes[|nodes| / 2..], prefix, suffix, depth + 1);
      } else if |nodes| == 1 && nodes[0].Text? && |nodes[0].text| > 1 {
        var mid := |nodes[0].text| / 2;
        PiecesAreSilent(c, [Text(nodes[0].text[..mid])], prefix, suffix, depth + 1);
        PiecesAreSilent(c, [Text(nodes[0].text[mid..])], prefix, suffix, depth + 1);
      } else if |nodes| == 1 && nodes[0].Element? && nodes[0].children != [] {
        var start, stop := [Start(nodes[0].tag, nodes[0].attributes)], [Stop(nodes[0].tag)];
        CharsAppend(prefix, start);
        CharsAppend(stop, suffix);
        assert start[1..] == [] && stop[1..] == [];
        PiecesAreSilent(c, nodes[0].children, prefix + start, stop + suffix, depth + 1);
      }
    }
  }

  function Visible(parts: seq<Part>): string {
    if parts == [] then ""
    else (match parts[0] case Markup(tokens) => CharsOf(tokens) case Plain(text) => text) + Visible(parts[1..])
  }

  /** What a piece is to show: its nodes' text, or the plain body it was given up for. */
  function Shown(c: Coding, pieces: seq<Piece>): string {
    if pieces == [] then ""
    else
      var p := pieces[0];
      (if p.kept then TextOf(p.nodes) else c.plain(Whole(p.prefix, p.nodes, p.suffix))) + Shown(c, pieces[1..])
  }

  lemma {:induction false} VisibleAppend(a: seq<Part>, b: seq<Part>)
    ensures Visible(a + b) == Visible(a) + Visible(b)
  {
    if a == [] {
      assert a + b == b;
    } else {
      assert (a + b)[0] == a[0] && (a + b)[1..] == a[1..] + b;
      VisibleAppend(a[1..], b);
      var first := match a[0] case Markup(tokens) => CharsOf(tokens) case Plain(text) => text;
      assert first + (Visible(a[1..]) + Visible(b)) == (first + Visible(a[1..])) + Visible(b);
    }
  }

  lemma {:induction false} VisiblePlains(texts: seq<string>)
    ensures Visible(Plains(texts)) == Join(texts)
  {
    if texts != [] {
      VisiblePlains(texts[1..]);
      assert Plains(texts)[1..] == Plains(texts[1..]);
    }
  }

  lemma PieceShows(c: Coding, piece: Piece)
    requires Sane(c) && CharsOf(piece.prefix) == "" && CharsOf(piece.suffix) == ""
    ensures Visible(PartsOf(c, piece)) ==
      if piece.kept then TextOf(piece.nodes) else c.plain(Whole(piece.prefix, piece.nodes, piece.suffix))
  {
    var whole := Whole(piece.prefix, piece.nodes, piece.suffix);
    if piece.kept {
      CharsAppend(piece.prefix + Render(piece.nodes), piece.suffix);
      CharsAppend(piece.prefix, Render(piece.nodes));
      RenderedChars(piece.nodes);
      assert [Markup(whole)][1..] == [];
      assert "" + TextOf(piece.nodes) + "" + "" == TextOf(piece.nodes);
    } else {
      PlainKeepsText(c, c.plain(whole));
      VisiblePlains(SplitPlain(c, c.plain(whole)));
    }
  }

  lemma {:induction false} PartsShow(c: Coding, pieces: seq<Piece>)
    requires Sane(c) && forall p :: p in pieces ==> CharsOf(p.prefix) == "" && CharsOf(p.suffix) == ""
    ensures Visible(Parts(c, pieces)) == Shown(c, pieces)
  {
    if pieces != [] {
      assert pieces[0] in pieces;
      PieceShows(c, pieces[0]);
      PartsShow(c, pieces[1..]);
      VisibleAppend(PartsOf(c, pieces[0]), Parts(c, pieces[1..]));
    }
  }

  lemma {:induction false} ShownWhenKept(c: Coding, pieces: seq<Piece>)
    requires forall p :: p in pieces ==> p.kept
    ensures Shown(c, pieces) == PiecesText(pieces)
  {
    if pieces != [] {
      assert pieces[0] in pieces;
      ShownWhenKept(c, pieces[1..]);
    }
  }

  /** A part that may be sent: balanced markup or plain text, within the limit. */
  predicate Sendable(c: Coding, part: Part) {
    match part
    case Markup(tokens) => c.bytes(tokens) <= LIMIT && Read(tokens, []) == Some([])
    case Plain(text) => FitsPlain(c, text)
  }

  lemma {:induction false} PartsAreSendable(c: Coding, pieces: seq<Piece>)
    requires Sane(c) && forall p :: p in pieces ==> PieceOk(c, p)
    ensures forall part :: part in Parts(c, pieces) ==> Sendable(c, part)
  {
    if pieces != [] {
      var piece := pieces[0];
      assert PieceOk(c, piece);
      WholeIsBalanced(piece.prefix, piece.nodes, piece.suffix);
      PlainKeepsText(c, c.plain(Whole(piece.prefix, piece.nodes, piece.suffix)));
      PartsAreSendable(c, pieces[1..]);
    }
  }

  /**
   Splitting markup: every part is balanced markup or plain text within the limit; the pieces the
   parts are made of hold every character and empty element once, in order, within its own tags; each
   comes of divisions of what is over the limit, and is given up only if it can be divided no more;
   and the parts together show each piece's text, or its plain body where it was given up.
   */
  lemma SplitHtmlIsRight(c: Coding, nodes: seq<Node>)
    requires Sane(c)
    ensures var pieces := Pieces(c, nodes, [], [], 0); var parts := Parts(c, pieces);
      && (forall part :: part in parts ==> Sendable(c, part))
      && PiecesLeaves(pieces) == Leaves([], nodes)
      && (forall p :: p in pieces ==> Justified(c, nodes, p))
      && Visible(parts) == Shown(c, pieces)
      && ((forall p :: p in pieces ==> p.kept) ==> Visible(parts) == TextOf(nodes))
  {
    hide Pieces, Sendable, Justified, Leaves, Visible, Parts;
    var pieces := Pieces(c, nodes, [], [], 0);
    PiecesAreOk(c, nodes, [], [], 0);
    PartsAreSendable(c, pieces);
    PiecesKeepLeaves(c, nodes, [], [], 0);
    PiecesKeepText(c, nodes, [], [], 0);
    PiecesAreSilent(c, nodes, [], [], 0);
    PartsShow(c, pieces);
    PiecesAreJustified(c, nodes);
    if forall p :: p in pieces ==> p.kept { ShownWhenKept(c, pieces); }
  }

  /**
   An oversized message of several blocks, each of which fits by itself: every part is markup, and
   together they show exactly the tree's text.
   */
  lemma FittingBlocksStayMarkup(c: Coding, nodes: seq<Node>)
    requires Sane(c) && nodes != [] && |nodes| <= PowerOfTwo(DEEPEST + 1)
    requires forall k :: 0 <= k < |nodes| ==> c.bytes(Render([nodes[k]])) <= LIMIT
    ensures var parts := Parts(c, Pieces(c, nodes, [], [], 0));
      (forall part :: part in parts ==> part.Markup?) && Visible(parts) == TextOf(nodes)
  {
    hide Pieces;
    forall k | 0 <= k < |nodes| ensures c.bytes(Whole([], [nodes[k]], [])) <= LIMIT {
      assert Whole([], [nodes[k]], []) == Render([nodes[k]]);
    }
    FittingAreKept(c, nodes, [], [], 0);
    SplitHtmlIsRight(c, nodes);
    KeptAreMarkup(c, Pieces(c, nodes, [], [], 0));
  }

  lemma {:induction false} KeptAreMarkup(c: Coding, pieces: seq<Piece>)
    requires Sane(c) && forall p :: p in pieces ==> p.kept
    ensures forall part :: part in Parts(c, pieces) ==> part.Markup?
  {
    if pieces != [] {
      assert pieces[0] in pieces;
      KeptAreMarkup(c, pieces[1..]);
    }
  }

  // ---------------------------------------------------------------- the program

  lemma {:induction false} PartsAppend(c: Coding, a: seq<Piece>, b: seq<Piece>)
    requires Sane(c)
    ensures Parts(c, a + b) == Parts(c, a) + Parts(c, b)
  {
    if a == [] {
      assert a + b == b;
    } else {
      assert (a + b)[0] == a[0] && (a + b)[1..] == a[1..] + b;
      PartsAppend(c, a[1..], b);
      assert PartsOf(c, a[0]) + (Parts(c, a[1..]) + Parts(c, b)) == (PartsOf(c, a[0]) + Parts(c, a[1..])) + Parts(c, b);
    }
  }

  lemma PartsOfOne(c: Coding, piece: Piece)
    requires Sane(c)
    ensures Parts(c, [piece]) == PartsOf(c, piece)
  {
    assert [piece][1..] == [] && PartsOf(c, piece) + [] == PartsOf(c, piece);
  }

  lemma {:induction false} RenderAppend(a: seq<Node>, b: seq<Node>)
    ensures Render(a + b) == Render(a) + Render(b)
  {
    if a == [] {
      assert a + b == b;
    } else {
      assert (a + b)[0] == a[0] && (a + b)[1..] == a[1..] + b;
      RenderAppend(a[1..], b);
      assert RenderNode(a[0]) + (Render(a[1..]) + Render(b)) == (RenderNode(a[0]) + Render(a[1..])) + Render(b);
    }
  }

  /** The builder that writes the prefix, every node and the suffix. */
  method Build(nodes: seq<Node>, prefix: seq<Token>, suffix: seq<Token>) returns (rendered: seq<Token>)
    ensures rendered == Whole(prefix, nodes, suffix)
  {
    rendered := prefix;
    assert prefix + [] == prefix;
    for k := 0 to |nodes|
      invariant rendered == prefix + Render(nodes[..k])
    {
      RenderAppend(nodes[..k], [nodes[k]]);
      assert nodes[..k + 1] == nodes[..k] + [nodes[k]] && [nodes[k]][1..] == [];
      assert RenderNode(nodes[k]) + [] == RenderNode(nodes[k]);
      assert prefix + (Render(nodes[..k]) + RenderNode(nodes[k])) == (prefix + Render(nodes[..k])) + RenderNode(nodes[k]);
      rendered := rendered + RenderNode(nodes[k]);
    }
    assert nodes[..|nodes|] == nodes;
    rendered := rendered + suffix;
  }

  /** The plain parts of a body, as parts. */
  method GiveUp(c: Coding, piece: Piece) returns (parts: seq<Part>)
    requires Sane(c) && !piece.kept
    ensures parts == Parts(c, [piece])
  {
    PartsOfOne(c, piece);
    var whole := Build(piece.nodes, piece.prefix, piece.suffix);
    parts := Plains(SplitPlain(c, c.plain(whole)));
  }

  method SplitHtml(c: Coding, nodes: seq<Node>, prefix: seq<Token>, suffix: seq<Token>, depth: nat) returns (parts: seq<Part>)
    requires Sane(c)
    ensures parts == Parts(c, Pieces(c, nodes, prefix, suffix, depth))
    decreases DEEPEST + 2 - depth, 0
  {
    var rendered := Build(nodes, prefix, suffix);
    if c.bytes(rendered) <= LIMIT {
      PartsOfOne(c, Piece(prefix, nodes, suffix, true));
      return [Markup(rendered)];
    }
    if depth > DEEPEST || Size(prefix) + Size(suffix) > LIMIT / 2 {
      parts := GiveUp(c, Piece(prefix, nodes, suffix, false));
      return;
    }
    if |nodes| > 1 {
      parts := SplitTwo(c, nodes[..|nodes| / 2], nodes[|nodes| / 2..], prefix, suffix, depth + 1);
      return;
    }
    if |nodes| == 1 {
      assert nodes == [nodes[0]];
      parts := SplitNode(c, nodes[0], prefix, suffix, depth);
      return;
    }
    parts := GiveUp(c, Piece(prefix, nodes, suffix, false));
  }

  /** A single node that is too large: its text halved, its children taken out, or given up. */
  method SplitNode(c: Coding, node: Node, prefix: seq<Token>, suffix: seq<Token>, depth: nat) returns (parts: seq<Part>)
    requires Sane(c) && c.bytes(Whole(prefix, [node], suffix)) > LIMIT
    requires depth <= DEEPEST && Size(prefix) + Size(suffix) <= LIMIT / 2
    ensures parts == Parts(c, Pieces(c, [node], prefix, suffix, depth))
    decreases DEEPEST + 1 - depth, 2
  {
    if node.Text? && |node.text| > 1 {
      var mid := |node.text| / 2;
      parts := SplitTwo(c, [Text(node.text[..mid])], [Text(node.text[mid..])], prefix, suffix, depth + 1);
    } else if node.Element? && node.children != [] {
      parts := SplitHtml(c, node.children, prefix + [Start(node.tag, node.attributes)], [Stop(node.tag)] + suffix, depth + 1);
    } else {
      parts := GiveUp(c, Piece(prefix, [node], suffix, false));
    }
  }

  method SplitTwo(c: Coding, left: seq<Node>, right: seq<Node>, prefix: seq<Token>, suffix: seq<Token>, depth: nat)
    returns (parts: seq<Part>)
    requires Sane(c) && 0 < depth <= DEEPEST + 1
    ensures parts == Parts(c, Pieces(c, left, prefix, suffix, depth) + Pieces(c, right, prefix, suffix, depth))
    decreases DEEPEST + 2 - depth, 1
  {
    var first := SplitHtml(c, left, prefix, suffix, depth);
    var second := SplitHtml(c, right, prefix, suffix, depth);
    PartsAppend(c, Pieces(c, left, prefix, suffix, depth), Pieces(c, right, prefix, suffix, depth));
    parts := first + second;
  }

  /** A rendered message: a plain body, or markup with the tree it parses to, if it parses. */
  datatype Content = PlainContent(body: string) | HtmlContent(body: string, bytes: nat, nodes: Option<seq<Node>>)

  datatype Sent = Unsplit | Split(parts: seq<Part>)

  /** splitMessage: only an oversized message is split, as markup if its markup parses. */
  method SplitMessage(c: Coding, content: Content) returns (sent: Sent)
    requires Sane(c)
    ensures sent.Unsplit? <==> if content.PlainContent? then FitsPlain(c, content.body) else content.bytes <= LIMIT
    ensures sent.Split? ==> forall part :: part in sent.parts ==> Sendable(c, part)
    ensures sent.Split? && content.HtmlContent? && content.nodes.Some? ==>
      sent.parts == Parts(c, Pieces(c, content.nodes.value, [], [], 0))
    ensures sent.Split? && !(content.HtmlContent? && content.nodes.Some?) ==>
      sent.parts == Plains(SplitPlain(c, content.body)) && Join(SplitPlain(c, content.body)) == content.body
  {
    PlainKeepsText(c, content.body);
    if content.HtmlContent? {
      if content.bytes <= LIMIT { return Unsplit; }
      if content.nodes.Some? {
        SplitHtmlIsRight(c, content.nodes.value);
        var parts := SplitHtml(c, content.nodes.value, [], [], 0);
        return Split(parts);
      }
    } else if FitsPlain(c, content.body) {
      return Unsplit;
    }
    return Split(Plains(SplitPlain(c, content.body)));
  }
}
