/**
 Parsing an append-only rollout (scripts/codex_source.py, read_thread): lines, the messages
 they say, and what a later read of a longer log can add.

 What one line says is given by a decoder: json.loads and the record's classification. Torn
 stands for a JSON error, which is skipped; Fatal for any other exception, which fails the read.
 */
module Rollout {
  import opened Journal

  const LIMIT := 128 * 1024 * 1024

  datatype Line = Torn | Fatal | Other | Turn(active: bool) | Said(item: Item)

  type Decoder = string -> Line

  datatype Thread = Thread(messages: seq<Item>, seen: set<nat>, active: bool)

  datatype Result = Failed | Oversized | Read(messages: seq<Item>, active: bool)

  function Add(thread: Thread, line: Line): Thread {
    match line
    case Turn(active) => thread.(active := active)
    case Said(item) =>
      if item.id in thread.seen then thread
      else Thread(thread.messages + [item], thread.seen + {item.id}, thread.active)
    case _ => thread
  }

  /** The thread the lines make, if none of them fails the read. */
  function Scan(decode: Decoder, lines: seq<string>): Option<Thread> {
    if lines == [] then Some(Thread([], {}, false))
    else
      var before := Scan(decode, lines[..|lines| - 1]);
      var line := decode(lines[|lines| - 1]);
      if before.None? || line.Fatal? then None else Some(Add(before.value, line))
  }

  // ---------------------------------------------------------------- lines

  predicate Ends(line: string) {
    line != "" && line[|line| - 1] == '\n'
  }

  /** One more character: it extends the last line, or begins the next if that one has ended. */
  function Extend(lines: seq<string>, c: char): seq<string> {
    if lines == [] || Ends(lines[|lines| - 1]) then lines + [[c]]
    else lines[|lines| - 1 := lines[|lines| - 1] + [c]]
  }

  function Lines(data: string): seq<string> {
    if data == "" then [] else Extend(Lines(data[..|data| - 1]), data[|data| - 1])
  }

  /** Of a prefix, every ended line is a line of the whole, and an unfinished last one begins one. */
  lemma {:induction false} LinesOfPrefix(a: string, b: string)
    requires a <= b
    ensures var la := Lines(a); var lb := Lines(b);
      && |la| <= |lb|
      && (forall k :: 0 <= k < |la| - 1 ==> la[k] == lb[k])
      && (la != [] ==> la[|la| - 1] <= lb[|la| - 1] && (Ends(la[|la| - 1]) ==> la[|la| - 1] == lb[|la| - 1]))
    decreases |b|
  {
    if |a| == |b| {
      assert a == b;
    } else {
      LinesOfPrefix(a, b[..|b| - 1]);
    }
  }

  /** A piece readline returns: not empty, and no newline but at its end. */
  predicate Piece(piece: string) {
    piece != "" && forall k :: 0 <= k < |piece| - 1 ==> piece[k] != '\n'
  }

  predicate Complete(data: string) {
    data == "" || Ends(data)
  }

  lemma LastCharacter(data: string)
    requires data != ""
    ensures Lines(data) != [] && Ends(Lines(data)[|Lines(data)| - 1]) == Ends(data)
  {
  }

  /** After complete lines, a piece is one more line. */
  lemma {:induction false} OneMoreLine(data: string, piece: string)
    requires Complete(data) && Piece(piece)
    ensures Lines(data + piece) == Lines(data) + [piece]
  {
    var last := |piece| - 1;
    var shorter := piece[..last];
    assert (data + piece)[..|data + piece| - 1] == data + shorter;
    assert piece == shorter + [piece[last]];
    if shorter == "" {
      assert data + shorter == data;
      if data != "" { LastCharacter(data); }
    } else {
      OneMoreLine(data, shorter);
    }
  }

  // ---------------------------------------------------------------- whole-line appends

  function Concat(pieces: seq<string>): string {
    if pieces == [] then "" else Concat(pieces[..|pieces| - 1]) + pieces[|pieces| - 1]
  }

  /** Only the last piece may lack its newline. */
  predicate Clean(pieces: seq<string>) {
    (forall k :: 0 <= k < |pieces| ==> Piece(pieces[k])) && (forall k :: 0 <= k < |pieces| - 1 ==> Ends(pieces[k]))
  }

  lemma {:induction false} CleanPieces(pieces: seq<string>)
    requires Clean(pieces)
    ensures Lines(Concat(pieces)) == pieces
    ensures pieces != [] && Ends(pieces[|pieces| - 1]) ==> Ends(Concat(pieces))
  {
    if pieces != [] {
      var last := |pieces| - 1;
      CleanPieces(pieces[..last]);
      OneMoreLine(Concat(pieces[..last]), pieces[last]);
      assert pieces == pieces[..last] + [pieces[last]];
    }
  }

  /**
   A record is written as a whole JSON text and its newline: cut short it is not JSON, and the
   newline adds nothing to it.
   */
  predicate Whole(decode: Decoder, line: string) {
    && Piece(line) && Ends(line) && |line| > 1
    && (forall k :: 0 < k < |line| - 1 ==> decode(line[..k]).Torn? || decode(line[..k]).Fatal?)
    && decode(line[..|line| - 1]) == decode(line)
  }

  predicate AllWhole(decode: Decoder, written: seq<string>) {
    forall k :: 0 <= k < |written| ==> Whole(decode, written[k])
  }

  // ---------------------------------------------------------------- monotonicity

  lemma {:induction false} ScanOfPrefix(decode: Decoder, lines: seq<string>, k: nat)
    requires k <= |lines| && Scan(decode, lines).Some?
    ensures Scan(decode, lines[..k]).Some?
    ensures Scan(decode, lines[..k]).value.messages <= Scan(decode, lines).value.messages
  {
    if k == |lines| {
      assert lines[..k] == lines;
    } else {
      var init := lines[..|lines| - 1];
      assert init[..k] == lines[..k];
      ScanOfPrefix(decode, init, k);
    }
  }

  lemma PieceOfLine(decode: Decoder, piece: string, line: string)
    requires Whole(decode, line) && piece != "" && piece <= line
    ensures decode(piece).Torn? || decode(piece).Fatal? || decode(piece) == decode(line)
    ensures decode(piece).Torn? || decode(piece).Fatal? || |piece| >= |line| - 1
  {
    if |piece| == |line| {
      assert piece == line;
    } else {
      assert piece == line[..|piece|];
    }
  }

  lemma {:induction false} LinesNonempty(data: string, k: nat)
    requires k < |Lines(data)|
    ensures Lines(data)[k] != ""
  {
    var init := data[..|data| - 1];
    if k < |Lines(init)| { LinesNonempty(init, k); }
  }

  /** Of a text cut off anywhere, a read sees whole lines and then a piece of the next. */
  lemma LinesOfCut(a: string, b: string)
    requires a <= b && a != ""
    ensures var la := Lines(a); var lb := Lines(b); var last := |la| - 1;
      && 0 <= last < |lb| && la[..last] == lb[..last]
      && la[last] != "" && la[last] <= lb[last]
  {
    LastCharacter(a);
    LinesOfPrefix(a, b);
    LinesNonempty(a, |Lines(a)| - 1);
  }

  /** How many lines count: all but a torn last one. */
  function Counted(decode: Decoder, lines: seq<string>): nat {
    if lines != [] && decode(lines[|lines| - 1]).Torn? then |lines| - 1 else |lines|
  }

  /** A read of a log cut off anywhere makes the thread of the whole lines it counts. */
  lemma ThreadOfPrefix(decode: Decoder, text: string, a: string)
    requires AllWhole(decode, Lines(text)) && a <= text && Scan(decode, Lines(a)).Some?
    ensures var k := Counted(decode, Lines(a));
      k <= |Lines(text)| && Scan(decode, Lines(text)[..k]) == Scan(decode, Lines(a))
  {
    if a == "" {
      assert Lines(text)[..0] == Lines(a);
    } else {
      LinesOfCut(a, text);
      var last := |Lines(a)| - 1;
      PieceOfLine(decode, Lines(a)[last], Lines(text)[last]);
      LastCounts(decode, Lines(a), Lines(text));
    }
  }

  lemma LastCounts(decode: Decoder, la: seq<string>, lb: seq<string>)
    requires la != [] && |la| <= |lb| && la[..|la| - 1] == lb[..|la| - 1]
    requires decode(la[|la| - 1]).Torn? || decode(la[|la| - 1]) == decode(lb[|la| - 1])
    requires Scan(decode, la).Some?
    ensures Scan(decode, lb[..Counted(decode, la)]) == Scan(decode, la)
  {
    var last := |la| - 1;
    if decode(la[last]).Torn? {
      assert Scan(decode, la) == Scan(decode, la[..last]);
    } else {
      SameEnd(decode, la, lb[..last + 1]);
    }
  }

  lemma SameEnd(decode: Decoder, a: seq<string>, b: seq<string>)
    requires a != [] && |a| == |b| && a[..|a| - 1] == b[..|a| - 1] && decode(a[|a| - 1]) == decode(b[|a| - 1])
    ensures Scan(decode, a) == Scan(decode, b)
  {
  }

  /** A line once read whole is not torn in a later read. */
  lemma WholeStays(decode: Decoder, text: string, a: string, b: string)
    requires AllWhole(decode, Lines(text)) && a <= b <= text && a != "" && |Lines(a)| == |Lines(b)|
    ensures Lines(a) != []
    ensures var x, y := Lines(a)[|Lines(a)| - 1], Lines(b)[|Lines(b)| - 1];
      decode(x).Torn? || decode(x).Fatal? || decode(y) == decode(x)
  {
    LinesOfCut(a, b);
    LinesOfCut(b, text);
    var last := |Lines(a)| - 1;
    Between(decode, Lines(a)[last], Lines(b)[last], Lines(text)[last]);
  }

  lemma Between(decode: Decoder, first: string, second: string, line: string)
    requires Whole(decode, line) && first != "" && first <= second <= line
    ensures decode(first).Torn? || decode(first).Fatal? || decode(second) == decode(first)
  {
    PieceOfLine(decode, first, line);
    if |second| == |line| {
      assert second == line;
    } else if |second| == |line| - 1 {
      assert second == line[..|line| - 1];
    }
  }

  lemma CountedGrows(decode: Decoder, text: string, a: string, b: string)
    requires AllWhole(decode, Lines(text)) && a <= b <= text
    requires Lines(a) != [] ==> !decode(Lines(a)[|Lines(a)| - 1]).Fatal?
    ensures Counted(decode, Lines(a)) <= Counted(decode, Lines(b))
  {
    LinesOfPrefix(a, b);
    if a != "" && |Lines(a)| == |Lines(b)| { WholeStays(decode, text, a, b); }
  }

  /**
   Log monotonicity: of two reads of a log that grows by whole, possibly torn lines, the earlier
   read's messages begin the later read's. The text is all that will ever have been written.
   */
  lemma LogMonotone(decode: Decoder, text: string, a: string, b: string)
    requires AllWhole(decode, Lines(text)) && a <= b <= text
    requires Scan(decode, Lines(a)).Some? && Scan(decode, Lines(b)).Some?
    ensures Scan(decode, Lines(a)).value.messages <= Scan(decode, Lines(b)).value.messages
  {
    hide Lines, AllWhole;
    ThreadOfPrefix(decode, text, a);
    ThreadOfPrefix(decode, text, b);
    CountedGrows(decode, text, a, b);
    var i, j := Counted(decode, Lines(a)), Counted(decode, Lines(b));
    assert Lines(text)[..j][..i] == Lines(text)[..i];
    ScanOfPrefix(decode, Lines(text)[..j], i);
  }

  // ---------------------------------------------------------------- which messages

  predicate Says(decode: Decoder, line: string, id: nat) {
    decode(line).Said? && decode(line).item.id == id
  }

  /** The line is the first to say a message with this id. */
  predicate First(decode: Decoder, lines: seq<string>, k: nat, item: Item) {
    k < |lines| && decode(lines[k]) == Said(item) && forall j :: 0 <= j < k ==> !Says(decode, lines[j], item.id)
  }

  lemma FirstKept(decode: Decoder, lines: seq<string>, k: nat, item: Item)
    requires lines != [] && k < |lines| - 1
    ensures First(decode, lines[..|lines| - 1], k, item) <==> First(decode, lines, k, item)
  {
  }

  /** The messages are distinct, and each is the first said with its id; no id said is missing. */
  lemma {:induction false} MessagesAreFirsts(decode: Decoder, lines: seq<string>)
    requires Scan(decode, lines).Some?
    ensures var thread := Scan(decode, lines).value;
      && (forall i, j :: 0 <= i < j < |thread.messages| ==> thread.messages[i].id != thread.messages[j].id)
      && (forall x :: x in thread.messages ==> x.id in thread.seen && exists k :: First(decode, lines, k, x))
      && (forall k :: 0 <= k < |lines| && decode(lines[k]).Said? ==> decode(lines[k]).item.id in thread.seen)
      && (forall id :: id in thread.seen ==> exists x :: x in thread.messages && x.id == id)
  {
    if lines != [] {
      var last := |lines| - 1;
      var init := lines[..last];
      MessagesAreFirsts(decode, init);
      var before := Scan(decode, init).value;
      var thread := Scan(decode, lines).value;
      forall x | x in thread.messages ensures x.id in thread.seen && exists k :: First(decode, lines, k, x) {
        if x in before.messages {
          var k :| First(decode, init, k, x);
          FirstKept(decode, lines, k, x);
        } else {
          assert decode(lines[last]) == Said(x) && x.id !in before.seen;
          assert forall j :: 0 <= j < last ==> init[j] == lines[j];
          assert First(decode, lines, last, x);
        }
      }
      forall k | 0 <= k < |lines| && decode(lines[k]).Said? ensures decode(lines[k]).item.id in thread.seen {
        if k < last { assert init[k] == lines[k]; }
      }
      forall id | id in thread.seen ensures exists x :: x in thread.messages && x.id == id {
        if id in before.seen {
          var x :| x in before.messages && x.id == id;
          assert x in thread.messages;
        } else {
          assert thread.messages[|thread.messages| - 1].id == id;
        }
      }
    }
  }

  /** The line begins a turn, and no later line begins or ends one. */
  predicate LastTurn(decode: Decoder, lines: seq<string>, k: nat) {
    k < |lines| && decode(lines[k]) == Turn(true) && forall j :: k < j < |lines| ==> !decode(lines[j]).Turn?
  }

  /** A task is running exactly when the last of its lines about turns begins one. */
  lemma {:induction false} RunningExactly(decode: Decoder, lines: seq<string>)
    requires Scan(decode, lines).Some?
    ensures Scan(decode, lines).value.active <==> exists k :: LastTurn(decode, lines, k)
  {
    if lines != [] {
      var last := |lines| - 1;
      var init := lines[..last];
      RunningExactly(decode, init);
      if decode(lines[last]).Turn? {
        assert decode(lines[last]) == Turn(true) ==> LastTurn(decode, lines, last);
      } else {
        forall k: nat ensures LastTurn(decode, lines, k) <==> LastTurn(decode, init, k) {
          if k < last { assert init[k] == lines[k] && forall j :: k < j < last ==> init[j] == lines[j]; }
        }
      }
    }
  }

  // ---------------------------------------------------------------- reading while the log grows

  /**
   Reads racing the writer: as long as each saw only its last piece unfinished, the earlier
   one's messages begin the later one's.
   */
  lemma CleanReadsAreMonotone(decode: Decoder, text: string, a: seq<string>, b: seq<string>)
    requires AllWhole(decode, Lines(text)) && Clean(a) && Clean(b)
    requires Concat(a) <= Concat(b) <= text
    requires Scan(decode, a).Some? && Scan(decode, b).Some?
    ensures Scan(decode, a).value.messages <= Scan(decode, b).value.messages
  {
    CleanPieces(a);
    CleanPieces(b);
    LogMonotone(decode, text, Concat(a), Concat(b));
  }

  /** Two records, and a decoder for them. */
  function Sample(line: string): Line {
    if |line| >= 2 && line[0] == 'a' && line[1] == 'b' then Said(Item(1, None, true, "first"))
    else if |line| >= 2 && line[0] == 'c' && line[1] == 'd' then Said(Item(2, None, false, "second"))
    else Torn
  }

  lemma SampleIsWhole()
    ensures AllWhole(Sample, ["ab\n", "cd\n"])
  {
  }

  lemma ScanAfterOne(decode: Decoder, pieces: seq<string>, piece: string)
    requires Scan(decode, pieces).Some?
    ensures Scan(decode, pieces + [piece]) ==
      if decode(piece).Fatal? then None else Some(Add(Scan(decode, pieces).value, decode(piece)))
  {
    assert (pieces + [piece])[..|pieces|] == pieces;
  }

  lemma ConcatAfterOne(pieces: seq<string>, piece: string)
    ensures Concat(pieces + [piece]) == Concat(pieces) + piece
  {
    assert (pieces + [piece])[..|pieces|] == pieces;
  }

  /** The racing reader's pieces: the first line in two, skipped twice, and the second whole. */
  lemma RacingScan()
    ensures var pieces := ["a", "b\n", "cd\n"];
      Scan(Sample, pieces).Some? && Scan(Sample, pieces).value.messages == [Item(2, None, false, "second")]
  {
    ScanAfterOne(Sample, [], "a");
    assert [] + ["a"] == ["a"];
    assert Scan(Sample, ["a"]) == Some(Thread([], {}, false));
    ScanAfterOne(Sample, ["a"], "b\n");
    assert ["a"] + ["b\n"] == ["a", "b\n"];
    assert Scan(Sample, ["a", "b\n"]) == Some(Thread([], {}, false));
    ScanAfterOne(Sample, ["a", "b\n"], "cd\n");
    assert ["a", "b\n"] + ["cd\n"] == ["a", "b\n", "cd\n"];
  }

  lemma QuietScan()
    ensures var whole := ["ab\n", "cd\n"];
      Scan(Sample, whole).Some? && Scan(Sample, whole).value.messages != []
      && Scan(Sample, whole).value.messages[0] == Item(1, None, true, "first")
  {
    ScanAfterOne(Sample, [], "ab\n");
    assert [] + ["ab\n"] == ["ab\n"];
    ScanAfterOne(Sample, ["ab\n"], "cd\n");
    assert ["ab\n"] + ["cd\n"] == ["ab\n", "cd\n"];
  }

  lemma ConcatTwo(a: string, b: string)
    ensures Concat([a]) == a && Concat([a, b]) == a + b
  {
    assert [a][..0] == [] && [a, b][..1] == [a];
    assert "" + a == a;
  }

  lemma SameText()
    ensures Concat(["a", "b\n", "cd\n"]) == "ab\ncd\n" == Concat(["ab\n", "cd\n"])
  {
    ConcatTwo("ab\n", "cd\n");
    ConcatTwo("a", "b\n");
    ConcatAfterOne(["a", "b\n"], "cd\n");
    assert ["a", "b\n"] + ["cd\n"] == ["a", "b\n", "cd\n"];
    assert "a" + "b\n" == "ab\n" && "ab\n" + "cd\n" == "ab\ncd\n";
  }

  /**
   A reader that meets an unfinished line and goes on when it is finished loses that line and
   keeps the next: its messages do not begin those of a later read of the very same text.
   */
  lemma RacingReadLosesALine()
    ensures var text := "ab\ncd\n"; var pieces := ["a", "b\n", "cd\n"];
      && AllWhole(Sample, Lines(text)) && Concat(pieces) == text && !Clean(pieces)
      && Scan(Sample, pieces).Some? && Scan(Sample, Lines(text)).Some?
      && !(Scan(Sample, pieces).value.messages <= Scan(Sample, Lines(text)).value.messages)
  {
    SampleIsWhole();
    RacingScan();
    QuietScan();
    SameText();
    CleanPieces(["ab\n", "cd\n"]);
    assert !Ends(["a", "b\n", "cd\n"][0]);
  }

  // ---------------------------------------------------------------- the program

  function ReadOf(decode: Decoder, data: string): Result {
    if |data| > LIMIT then Oversized
    else match Scan(decode, Lines(data))
      case None => Failed
      case Some(thread) => Read(thread.messages, thread.active)
  }

  /** A line that fails the read fails every read of the same data. */
  lemma FatalFails(decode: Decoder, data: string, position: nat, pieces: seq<string>)
    requires position <= |data| && Concat(pieces) == data[..position] && Clean(pieces) && Scan(decode, pieces).None?
    requires position < |data| ==> forall k :: 0 <= k < |pieces| ==> Ends(pieces[k])
    ensures Scan(decode, Lines(data)).None?
  {
    hide Lines, Scan, Concat, Clean, Piece, Ends;
    CleanPieces(pieces);
    LinesOfPrefix(data[..position], data);
    if position == |data| {
      assert data[..position] == data;
    } else {
      assert Lines(data)[..|pieces|] == pieces;
    }
    if Scan(decode, Lines(data)).Some? { ScanOfPrefix(decode, Lines(data), |pieces|); }
  }

  /**
   The pieces in which a read takes a file that is being written: each ends a line, unless it is all
   that was there at the time, or all that is ever read.
   */
  ghost predicate AsRead(pieces: seq<string>, history: seq<string>) {
    && (forall k :: 0 <= k < |pieces| ==> Piece(pieces[k]))
    && forall k :: 0 <= k < |pieces| ==> Ends(pieces[k]) || CutAt(pieces, k, history)
  }

  predicate CutAt(pieces: seq<string>, k: nat, history: seq<string>)
    requires k < |pieces|
  {
    Concat(pieces[..k + 1]) in history || |Concat(pieces[..k + 1])| == LIMIT
  }

  lemma AsReadMore(pieces: seq<string>, piece: string, history: seq<string>)
    requires AsRead(pieces, history) && Piece(piece)
    requires Ends(piece) || Concat(pieces + [piece]) in history || |Concat(pieces + [piece])| == LIMIT
    ensures AsRead(pieces + [piece], history)
  {
    hide Ends, Piece, Concat;
    assert (pieces + [piece])[..|pieces| + 1] == pieces + [piece];
    forall k | 0 <= k < |pieces| && !Ends(pieces[k]) ensures CutAt(pieces + [piece], k, history) {
      assert CutAt(pieces, k, history);
      assert (pieces + [piece])[..k + 1] == pieces[..k + 1];
    }
  }

  lemma AsReadLater(pieces: seq<string>, before: seq<string>, after: seq<string>)
    requires AsRead(pieces, before) && before <= after
    ensures AsRead(pieces, after)
  {
    hide Ends, Piece, Concat;
    forall k | 0 <= k < |pieces| && !Ends(pieces[k]) ensures CutAt(pieces, k, after) {
      assert CutAt(pieces, k, before);
      assert forall d :: d in before ==> d in after;
    }
  }

  /** The last of these pieces, and none before it, fails the read. */
  predicate FailsAt(decode: Decoder, pieces: seq<string>) {
    && pieces != [] && decode(pieces[|pieces| - 1]).Fatal?
    && forall k :: 0 <= k < |pieces| - 1 ==> !decode(pieces[k]).Fatal?
  }

  lemma {:induction false} NoneIsFatal(decode: Decoder, pieces: seq<string>)
    ensures Scan(decode, pieces).Some? <==> forall k :: 0 <= k < |pieces| ==> !decode(pieces[k]).Fatal?
  {
    if pieces != [] { NoneIsFatal(decode, pieces[..|pieces| - 1]); }
  }

  /**
   A rollout file with a live writer. The version stands for the identity, size and times that
   the delivery fingerprint digests: every write makes a new one.
   */
  class RolloutFile {
    var data: string
    var version: nat
    ghost var history: seq<string>   // the data of every version so far

    ghost predicate Valid()
      reads this
    {
      version + 1 == |history| && history[version] == data
    }

    constructor ()
      ensures Valid() && data == ""
    {
      data, version := "", 0;
      history := [""];
    }

    /** The writer may append anything at any time. */
    method Grow()
      requires Valid()
      modifies this
      ensures Valid() && old(history) <= history && old(data) <= data
      ensures old(version) <= version && (version == old(version) ==> data == old(data))
    {
      var more: string := *;
      if more != "" {
        data, version := data + more, version + 1;
        history := history + [data];
      }
    }

    /** stream.readline(limit) from a position. */
    method ReadLine(position: nat, limit: nat) returns (line: string)
      requires position <= |data|
      ensures position + |line| <= |data| && line == data[position..position + |line|]
      ensures line == "" <==> position == |data| || limit == 0
      ensures line != "" ==> Piece(line) && (Ends(line) || |line| == limit || position + |line| == |data|)
      ensures |line| <= limit
    {
      line := "";
      while position + |line| < |data| && |line| < limit
        invariant position + |line| <= |data| && |line| <= limit
        invariant line == data[position..position + |line|]
        invariant forall k :: 0 <= k < |line| ==> line[k] != '\n'
      {
        var c := data[position + |line|];
        line := line + [c];
        if c == '\n' { return; }
      }
    }

    /** The pieces read, the thread they make, and what they are of a file that has not changed. */
    ghost predicate Reading(decode: Decoder, pieces: seq<string>, thread: Thread, position: nat, before: string, first: nat)
      reads this
    {
      && Valid() && position <= |data| && before <= data && first <= version
      && Concat(pieces) == data[..position]
      && (forall k :: 0 <= k < |pieces| ==> Piece(pieces[k]))
      && AsRead(pieces, history) && Scan(decode, pieces) == Some(thread)
      && (version == first ==>
            data == before && Clean(pieces) && (position < |data| ==> forall k :: 0 <= k < |pieces| ==> Ends(pieces[k])))
    }

    lemma LineTaken(decode: Decoder, pieces: seq<string>, thread: Thread, position: nat, before: string, first: nat, line: string, limit: nat)
      requires Reading(decode, pieces, thread, position, before, first)
      requires position + limit == LIMIT && (version == first ==> |data| <= position + limit)
      requires position + |line| <= |data| && line == data[position..position + |line|] && Piece(line)
      requires Ends(line) || |line| == limit || position + |line| == |data|
      ensures decode(line).Fatal? ==> FailsAt(decode, pieces + [line]) && (version == first ==> Scan(decode, Lines(data)).None?)
      ensures !decode(line).Fatal? ==> Reading(decode, pieces + [line], Add(thread, decode(line)), position + |line|, before, first)
      ensures Concat(pieces + [line]) <= data && AsRead(pieces + [line], history)
    {
      ScanAfterOne(decode, pieces, line);
      ConcatAfterOne(pieces, line);
      assert data[..position + |line|] == data[..position] + line;
      if position + |line| == |data| { assert data[..position + |line|] == data == history[version]; }
      AsReadMore(pieces, line, history);
      NoneIsFatal(decode, pieces);
      if decode(line).Fatal? && version == first { FatalFails(decode, data, position + |line|, pieces + [line]); }
    }

    /** The writer appends while a read is under way. */
    method GrowMeanwhile(ghost decode: Decoder, ghost pieces: seq<string>, ghost thread: Thread, position: nat, ghost before: string, ghost first: nat)
      requires Reading(decode, pieces, thread, position, before, first)
      modifies this
      ensures Reading(decode, pieces, thread, position, before, first)
      ensures Valid() && position <= |data| && before <= data && first <= version && (version == first ==> data == before)
      ensures old(history) <= history
    {
      hide Scan, Clean, Concat, Piece, Ends, AsRead;
      Grow();
      assert data[..position] == old(data)[..position];
      AsReadLater(pieces, old(history), history);
    }

    /**
     read_thread, with the writer appending between any two of its lines. The pieces are the
     lines as readline returned them: a completed read has taken at least all that was there when it
     began, and one that fails has met a line that fails it; if the version has not changed, the
     result is that of the data as it stood.
     */
    method ReadThread(decode: Decoder) returns (result: Result, ghost pieces: seq<string>)
      requires Valid()
      modifies this
      ensures Valid() && old(history) <= history && old(version) <= version && old(data) <= data
      ensures Concat(pieces) <= data && AsRead(pieces, history)
      ensures result.Read? ==>
        && old(data) <= Concat(pieces) && Scan(decode, pieces).Some?
        && Scan(decode, pieces).value.messages == result.messages && Scan(decode, pieces).value.active == result.active
      ensures result.Failed? ==> FailsAt(decode, pieces)
      ensures !result.Failed? ==> (result.Oversized? <==> |data| > 128 * 1024 * 1024)
      ensures |old(data)| > 128 * 1024 * 1024 ==> result.Oversized?
      ensures version == old(version) ==> data == old(data) && result == ReadOf(decode, data)
    {
      pieces := [];
      assert Reading(decode, pieces, Thread([], {}, false), 0, data, version);
      hide Lines, Scan, Piece, Ends, Clean, AsRead, FailsAt, Concat, ReadOf, Reading;
      OversizedRead(decode, data);
      if |data| > LIMIT { return Oversized, pieces; }
      var messages: seq<Item>, seen: set<nat>, active := [], {}, false;
      var position: nat, remaining: nat := 0, LIMIT;
      var open := true;
      while open && remaining > 0
        invariant position + remaining == LIMIT && old(history) <= history && Valid() && old(version) <= version && old(data) <= data
        invariant Reading(decode, pieces, Thread(messages, seen, active), position, old(data), old(version))
        invariant !open ==> position >= |old(data)|
        invariant version == old(version) ==> data == old(data) && (!open ==> position == |data|)
        decreases open, remaining
      {
        GrowMeanwhile(decode, pieces, Thread(messages, seen, active), position, old(data), old(version));
        var line := ReadLine(position, remaining);
        if line == "" {
          open := false;
        } else {
          LineTaken(decode, pieces, Thread(messages, seen, active), position, old(data), old(version), line, remaining);
          pieces := pieces + [line];
          position, remaining := position + |line|, remaining - |line|;
          match decode(line) {
            case Torn =>
            case Other =>
            case Fatal =>
              return Failed, pieces;
            case Turn(value) =>
              active := value;
            case Said(item) =>
              if item.id !in seen {
                seen := seen + {item.id};
                messages := messages + [item];
              }
          }
        }
      }
      if version == old(version) { CompletedRead(decode, pieces, Thread(messages, seen, active), position, old(data), old(version)); }
      GrowMeanwhile(decode, pieces, Thread(messages, seen, active), position, old(data), old(version));
      ReadSoFar(decode, pieces, Thread(messages, seen, active), position, old(data), old(version));
      if |data| > LIMIT { return Oversized, pieces; }
      return Read(messages, active), pieces;
    }

    lemma OversizedRead(decode: Decoder, all: string)
      ensures |all| > LIMIT ==> ReadOf(decode, all) == Oversized
      ensures |all| <= LIMIT && Scan(decode, Lines(all)).None? ==> ReadOf(decode, all) == Failed
    {
    }

    lemma CompletedRead(decode: Decoder, pieces: seq<string>, thread: Thread, position: nat, before: string, first: nat)
      requires Reading(decode, pieces, thread, position, before, first) && version == first && position == |data| <= LIMIT
      ensures ReadOf(decode, data) == Read(thread.messages, thread.active)
    {
      assert data[..position] == data;
      CleanPieces(pieces);
    }

    lemma ReadSoFar(decode: Decoder, pieces: seq<string>, thread: Thread, position: nat, before: string, first: nat)
      requires Reading(decode, pieces, thread, position, before, first)
      ensures AsRead(pieces, history) && Concat(pieces) <= data && Scan(decode, pieces) == Some(thread)
      ensures position >= |before| ==> before <= Concat(pieces)
    {
    }
  }
}
