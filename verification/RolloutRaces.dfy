/**
 Reading a rollout while it is written (scripts/codex_source.py, read_thread): exactly when the
 messages of one read begin those of another, and which lines a racing read may lose for that.
 */
module RolloutRaces {
  import opened Journal
  import opened Rollout

  // ---------------------------------------------------------------- when a read begins another

  predicate SaidBefore(decode: Decoder, lines: seq<string>, k: nat, id: nat)
    requires k <= |lines|
  {
    exists j :: 0 <= j < k && Says(decode, lines[j], id)
  }

  /** The line says a message that none before it did. */
  predicate News(decode: Decoder, lines: seq<string>, k: nat) {
    k < |lines| && decode(lines[k]).Said? && First(decode, lines, k, decode(lines[k]).item)
  }

  /** The message is the other read's own first of its id, and all it heard before was heard here before. */
  predicate Follows(decode: Decoder, a: seq<string>, b: seq<string>, k: nat)
    requires News(decode, a, k)
  {
    exists i :: 0 <= i < |b| && First(decode, b, i, decode(a[k]).item) && NoneMissing(decode, a, b, k, i)
  }

  predicate NoneMissing(decode: Decoder, a: seq<string>, b: seq<string>, k: nat, i: nat)
    requires k <= |a| && i <= |b|
  {
    forall h :: 0 <= h < i && decode(b[h]).Said? ==> SaidBefore(decode, a, k, decode(b[h]).item.id)
  }

  predicate AllFollow(decode: Decoder, a: seq<string>, b: seq<string>) {
    forall k :: 0 <= k < |a| && News(decode, a, k) ==> Follows(decode, a, b, k)
  }

  /** The messages up to a line, and the line's own if it is the first of its id. */
  lemma UpTo(decode: Decoder, lines: seq<string>, i: nat, item: Item)
    requires Scan(decode, lines).Some? && First(decode, lines, i, item)
    ensures Scan(decode, lines[..i]).Some?
    ensures Scan(decode, lines[..i]).value.messages + [item] <= Scan(decode, lines).value.messages
  {
    ScanOfPrefix(decode, lines, i);
    ScanOfPrefix(decode, lines, i + 1);
    assert lines[..i + 1][..i] == lines[..i];
    MessagesAreFirsts(decode, lines[..i]);
    forall k: nat, x | First(decode, lines[..i], k, x) ensures x.id != item.id { assert lines[..i][k] == lines[k]; }
  }

  predicate Among(items: seq<Item>, m: nat, id: nat)
    requires m <= |items|
  {
    exists k :: 0 <= k < m && items[k].id == id
  }

  /** Up to its i-th line the read has heard nothing but the first m messages. */
  predicate Within(decode: Decoder, b: seq<string>, i: nat, messages: seq<Item>, m: nat)
    requires i <= |b| && m <= |messages|
  {
    forall h :: 0 <= h < i && decode(b[h]).Said? ==> Among(messages, m, decode(b[h]).item.id)
  }

  /** Which message comes next after a read's first m. */
  lemma NextIs(decode: Decoder, b: seq<string>, m: nat, item: Item)
    requires Scan(decode, b).Some? && m <= |Scan(decode, b).value.messages|
    requires !Among(Scan(decode, b).value.messages, m, item.id)
    ensures var messages := Scan(decode, b).value.messages;
      m < |messages| && messages[m] == item <==>
        exists i :: 0 <= i < |b| && First(decode, b, i, item) && Within(decode, b, i, messages, m)
  {
    hide Scan;
    var messages := Scan(decode, b).value.messages;
    MessagesAreFirsts(decode, b);
    if m < |messages| && messages[m] == item {
      assert item in messages;
      var i: nat :| First(decode, b, i, item);
      HeardBefore(decode, b, i, m);
    }
    if i :| 0 <= i < |b| && First(decode, b, i, item) && Within(decode, b, i, messages, m) {
      ComesNext(decode, b, i, m, item);
    }
  }

  lemma ComesNext(decode: Decoder, b: seq<string>, i: nat, m: nat, item: Item)
    requires Scan(decode, b).Some? && m <= |Scan(decode, b).value.messages|
    requires !Among(Scan(decode, b).value.messages, m, item.id)
    requires First(decode, b, i, item) && Within(decode, b, i, Scan(decode, b).value.messages, m)
    ensures m < |Scan(decode, b).value.messages| && Scan(decode, b).value.messages[m] == item
  {
    hide Scan;
    var messages := Scan(decode, b).value.messages;
    UpTo(decode, b, i, item);
    var before := Scan(decode, b[..i]).value.messages;
    assert messages[|before|] == item;
    MessagesAreFirsts(decode, b);
    MessagesAreFirsts(decode, b[..i]);
    if before != [] {
      var c := |before| - 1;
      assert before[c] == messages[c] && before[c] in before;
      var h: nat :| First(decode, b[..i], h, before[c]);
      assert b[..i][h] == b[h];
      var k :| 0 <= k < m && messages[k].id == messages[c].id;
      assert k == c;
    }
  }

  lemma HeardBefore(decode: Decoder, b: seq<string>, i: nat, m: nat)
    requires Scan(decode, b).Some? && m < |Scan(decode, b).value.messages|
    requires First(decode, b, i, Scan(decode, b).value.messages[m])
    ensures Within(decode, b, i, Scan(decode, b).value.messages, m)
  {
    var messages := Scan(decode, b).value.messages;
    UpTo(decode, b, i, messages[m]);
    var before := Scan(decode, b[..i]).value.messages;
    MessagesAreFirsts(decode, b);
    MessagesAreFirsts(decode, b[..i]);
    assert messages[|before|] == messages[m] && |before| == m;
    forall h | 0 <= h < i && decode(b[h]).Said? ensures Among(messages, m, decode(b[h]).item.id) {
      assert b[..i][h] == b[h];
      var x :| x in before && x.id == decode(b[h]).item.id;
      var k :| 0 <= k < |before| && before[k] == x;
      assert messages[k] == x;
    }
  }

  lemma HeardIsSaid(decode: Decoder, lines: seq<string>, id: nat)
    requires Scan(decode, lines).Some?
    ensures var thread := Scan(decode, lines).value;
      && (Among(thread.messages, |thread.messages|, id) <==> SaidBefore(decode, lines, |lines|, id))
      && (id in thread.seen <==> SaidBefore(decode, lines, |lines|, id))
  {
    MessagesAreFirsts(decode, lines);
    var thread := Scan(decode, lines).value;
    if k :| 0 <= k < |thread.messages| && thread.messages[k].id == id {
      assert thread.messages[k] in thread.messages;
      var j: nat :| First(decode, lines, j, thread.messages[k]);
      assert Says(decode, lines[j], id);
    }
    if id in thread.seen {
      var x :| x in thread.messages && x.id == id;
      var k :| 0 <= k < |thread.messages| && thread.messages[k] == x;
    }
  }

  /**
   Exactly when the messages of a read begin those of another, whatever pieces either was made of:
   when each message newly said is the other's own first of its id, and every id that was said
   before it there was said before it here.
   */
  lemma {:induction false} BeginsExactly(decode: Decoder, a: seq<string>, b: seq<string>)
    requires Scan(decode, a).Some? && Scan(decode, b).Some?
    ensures Scan(decode, a).value.messages <= Scan(decode, b).value.messages <==> AllFollow(decode, a, b)
    decreases |a|
  {
    if a != [] {
      BeginsExactly(decode, a[..|a| - 1], b);
      FollowStays(decode, a, b);
      LastFollows(decode, a, b);
    }
  }

  /** The messages before the last line follow as they did without it. */
  lemma FollowStays(decode: Decoder, a: seq<string>, b: seq<string>)
    requires a != []
    ensures AllFollow(decode, a[..|a| - 1], b) <==>
      forall k :: 0 <= k < |a| - 1 && News(decode, a, k) ==> Follows(decode, a, b, k)
  {
    var init := a[..|a| - 1];
    forall k | 0 <= k < |init|
      ensures News(decode, init, k) <==> News(decode, a, k)
      ensures News(decode, a, k) ==> (Follows(decode, init, b, k) <==> Follows(decode, a, b, k))
    {
      assert init[k] == a[k] && forall j :: 0 <= j < k ==> init[j] == a[j];
      assert forall id :: SaidBefore(decode, init, k, id) <==> SaidBefore(decode, a, k, id);
      assert forall i: nat :: i <= |b| ==> (NoneMissing(decode, init, b, k, i) <==> NoneMissing(decode, a, b, k, i));
    }
  }

  /** The last line either says nothing new, or says what must come next. */
  lemma LastFollows(decode: Decoder, a: seq<string>, b: seq<string>)
    requires a != [] && Scan(decode, a).Some? && Scan(decode, b).Some?
    ensures Scan(decode, a[..|a| - 1]).Some?
    ensures var before := Scan(decode, a[..|a| - 1]).value.messages; var other := Scan(decode, b).value.messages;
      Scan(decode, a).value.messages <= other <==>
        before <= other && (News(decode, a, |a| - 1) ==> Follows(decode, a, b, |a| - 1))
  {
    hide Scan, Follows, First;
    LastSays(decode, a);
    var before := Scan(decode, a[..|a| - 1]).value.messages;
    var other := Scan(decode, b).value.messages;
    if News(decode, a, |a| - 1) {
      var item := decode(a[|a| - 1]).item;
      if before <= other { NewsFollows(decode, a, b); }
      OneMore(before, item, other);
    } else {
      assert before + [] == before;
    }
  }

  lemma OneMore(items: seq<Item>, item: Item, all: seq<Item>)
    ensures items + [item] <= all <==> items <= all && |items| < |all| && all[|items|] == item
  {
    if items + [item] <= all { assert items == (items + [item])[..|items|] && all[|items|] == (items + [item])[|items|]; }
    if items <= all && |items| < |all| && all[|items|] == item { assert items + [item] == all[..|items| + 1]; }
  }

  lemma LastSays(decode: Decoder, a: seq<string>)
    requires a != [] && Scan(decode, a).Some?
    ensures Scan(decode, a[..|a| - 1]).Some?
    ensures Scan(decode, a).value.messages ==
      Scan(decode, a[..|a| - 1]).value.messages + if News(decode, a, |a| - 1) then [decode(a[|a| - 1]).item] else []
  {
    NewsIsUnseen(decode, a);
  }

  lemma NewsFollows(decode: Decoder, a: seq<string>, b: seq<string>)
    requires a != [] && Scan(decode, a[..|a| - 1]).Some? && Scan(decode, b).Some? && News(decode, a, |a| - 1)
    requires Scan(decode, a[..|a| - 1]).value.messages <= Scan(decode, b).value.messages
    ensures var m := |Scan(decode, a[..|a| - 1]).value.messages|; var other := Scan(decode, b).value.messages;
      Follows(decode, a, b, |a| - 1) <==> m < |other| && other[m] == decode(a[|a| - 1]).item
  {
    hide Scan;
    var last := |a| - 1;
    var before := Scan(decode, a[..last]).value.messages;
    var other := Scan(decode, b).value.messages;
    var m, item := |before|, decode(a[last]).item;
    forall id ensures Among(other, m, id) <==> SaidBefore(decode, a, last, id) {
      HeardIsSaid(decode, a[..last], id);
      SaidInInit(decode, a, id);
      assert Among(other, m, id) <==> Among(before, m, id);
    }
    NextIs(decode, b, m, item);
    assert forall i: nat :: i <= |b| ==> (NoneMissing(decode, a, b, last, i) <==> Within(decode, b, i, other, m));
  }

  lemma SaidInInit(decode: Decoder, a: seq<string>, id: nat)
    requires a != []
    ensures SaidBefore(decode, a[..|a| - 1], |a| - 1, id) <==> SaidBefore(decode, a, |a| - 1, id)
  {
    assert forall j :: 0 <= j < |a| - 1 ==> a[..|a| - 1][j] == a[j];
  }

  lemma NewsIsUnseen(decode: Decoder, a: seq<string>)
    requires a != [] && Scan(decode, a).Some?
    ensures Scan(decode, a[..|a| - 1]).Some?
    ensures var line := decode(a[|a| - 1]);
      News(decode, a, |a| - 1) <==> line.Said? && line.item.id !in Scan(decode, a[..|a| - 1]).value.seen
  {
    var line := decode(a[|a| - 1]);
    if line.Said? {
      HeardIsSaid(decode, a[..|a| - 1], line.item.id);
      SaidInInit(decode, a, line.item.id);
    }
  }

  // ---------------------------------------------------------------- where the pieces lie

  lemma {:induction false} LinesConcat(data: string)
    ensures Concat(Lines(data)) == data
    decreases |data|
  {
    if data != "" {
      var init, c := data[..|data| - 1], data[|data| - 1];
      var lines := Lines(init);
      LinesConcat(init);
      assert data == init + [c];
      if lines == [] || Ends(lines[|lines| - 1]) {
        ConcatAfterOne(lines, [c]);
      } else {
        var last := |lines| - 1;
        assert Lines(data)[..last] == lines[..last];
        assert Concat(lines[..last]) + lines[last] + [c] == Concat(lines[..last]) + (lines[last] + [c]);
      }
    }
  }

  /** The piece is what a line holds from an offset on. */
  predicate Lies(lines: seq<string>, pieces: seq<string>, k: nat, i: nat, offset: nat) {
    && k < |pieces| && i < |lines| && offset + |pieces[k]| <= |lines[i]|
    && pieces[k] == lines[i][offset..offset + |pieces[k]|]
    && |Concat(pieces[..k])| == |Concat(lines[..i])| + offset
  }

  lemma {:induction false} ConcatUpTo(pieces: seq<string>, k: nat)
    requires k < |pieces|
    ensures Concat(pieces[..k]) + pieces[k] <= Concat(pieces)
    decreases |pieces|
  {
    var last := |pieces| - 1;
    if k < last {
      ConcatUpTo(pieces[..last], k);
      assert pieces[..last][..k] == pieces[..k];
    }
  }

  /** Every position of a text lies in one of its lines. */
  lemma {:induction false} InSomeLine(lines: seq<string>, position: nat) returns (i: nat)
    requires position < |Concat(lines)|
    ensures i < |lines| && |Concat(lines[..i])| <= position < |Concat(lines[..i])| + |lines[i]|
    decreases |lines|
  {
    var last := |lines| - 1;
    if position < |Concat(lines[..last])| {
      i := InSomeLine(lines[..last], position);
      assert lines[..last][..i] == lines[..i];
    } else {
      i := last;
    }
  }

  /** A piece never crosses a line. */
  lemma StaysInLine(text: string, piece: string, position: nat, line: string, start: nat)
    requires position + |piece| <= |text| && piece == text[position..position + |piece|] && Piece(piece)
    requires start + |line| <= |text| && line == text[start..start + |line|] && Ends(line)
    requires start <= position < start + |line|
    ensures var offset := position - start; offset + |piece| <= |line| && piece == line[offset..offset + |piece|]
  {
    var offset := position - start;
    var last := |line| - 1;
    assert text[start + last] == line[last] == '\n';
    if last - offset < |piece| { assert piece[last - offset] == text[position + (last - offset)]; }
    forall r | 0 <= r < |piece| ensures piece[r] == line[offset + r] { assert text[position + r] == text[start + (offset + r)]; }
  }

  lemma IsSlice(text: string, before: string, piece: string)
    requires before + piece <= text
    ensures |before| + |piece| <= |text| && piece == text[|before|..|before| + |piece|]
  {
    assert text[..|before| + |piece|] == before + piece;
  }

  lemma PieceLies(decode: Decoder, text: string, pieces: seq<string>, k: nat) returns (i: nat, offset: nat)
    requires AllWhole(decode, Lines(text)) && Concat(pieces) <= text && k < |pieces| && Piece(pieces[k])
    ensures Lies(Lines(text), pieces, k, i, offset)
  {
    hide Lines, Concat, Piece;
    var lines := Lines(text);
    LinesConcat(text);
    ConcatUpTo(pieces, k);
    IsSlice(text, Concat(pieces[..k]), pieces[k]);
    var position := |Concat(pieces[..k])|;
    assert pieces[k] != "" by { PieceNotEmpty(pieces[k]); }
    i := InSomeLine(lines, position);
    ConcatUpTo(lines, i);
    IsSlice(text, Concat(lines[..i]), lines[i]);
    offset := position - |Concat(lines[..i])|;
    assert Whole(decode, lines[i]);
    StaysInLine(text, pieces[k], position, lines[i], |Concat(lines[..i])|);
  }

  lemma PieceNotEmpty(piece: string)
    requires Piece(piece)
    ensures piece != ""
  {
  }

  /** A later piece does not lie in an earlier line. */
  lemma LinesInOrder(lines: seq<string>, pieces: seq<string>, k: nat, i: nat, o: nat, l: nat, j: nat, p: nat)
    requires Lies(lines, pieces, k, i, o) && Lies(lines, pieces, l, j, p) && i < j && pieces[k] != ""
    ensures k < l
  {
    ConcatGrows(lines, i, j);
    if l < k { ConcatGrows(pieces, l, k); }
  }

  lemma {:induction false} ConcatGrows(pieces: seq<string>, i: nat, j: nat)
    requires i < j <= |pieces|
    ensures |Concat(pieces[..i])| + |pieces[i]| <= |Concat(pieces[..j])|
    decreases j
  {
    assert pieces[..j][..j - 1] == pieces[..j - 1] && pieces[..j][j - 1] == pieces[j - 1];
    if i < j - 1 { ConcatGrows(pieces, i, j - 1); }
  }

  // ---------------------------------------------------------------- racing reads

  /** Nothing but the whole record, with or without its line feed, says a message. */
  predicate FragmentsMute(decode: Decoder, line: string) {
    forall o, e :: 0 <= o < e <= |line| && !(o == 0 && e >= |line| - 1) ==> !decode(line[o..e]).Said?
  }

  predicate AllMute(decode: Decoder, lines: seq<string>) {
    forall i :: 0 <= i < |lines| ==> FragmentsMute(decode, lines[i])
  }

  /** No two lines say the same id. */
  predicate SaidOnce(decode: Decoder, lines: seq<string>) {
    forall i, j :: 0 <= i < j < |lines| && decode(lines[i]).Said? ==> !Says(decode, lines[j], decode(lines[i]).item.id)
  }

  /** Some piece decodes to what the line says. */
  predicate Heard(decode: Decoder, pieces: seq<string>, line: string) {
    exists k :: 0 <= k < |pieces| && decode(pieces[k]) == decode(line)
  }

  /** A piece that says something is a line, or a line but for its line feed. */
  lemma PieceSays(decode: Decoder, text: string, pieces: seq<string>, k: nat) returns (i: nat, offset: nat)
    requires AllWhole(decode, Lines(text)) && AllMute(decode, Lines(text)) && Concat(pieces) <= text
    requires k < |pieces| && Piece(pieces[k]) && decode(pieces[k]).Said?
    ensures Lies(Lines(text), pieces, k, i, offset) && decode(pieces[k]) == decode(Lines(text)[i])
  {
    hide Lines;
    i, offset := PieceLies(decode, text, pieces, k);
    var line := Lines(text)[i];
    assert Whole(decode, line) && FragmentsMute(decode, line);
    assert offset == 0 && |pieces[k]| >= |line| - 1;
    if |pieces[k]| == |line| { assert pieces[k] == line; } else { assert pieces[k] == line[..|line| - 1]; }
  }

  /** The piece that says a line's message lies in that line. */
  lemma SaysItsLine(decode: Decoder, text: string, pieces: seq<string>, k: nat, i: nat) returns (offset: nat)
    requires AllWhole(decode, Lines(text)) && AllMute(decode, Lines(text)) && SaidOnce(decode, Lines(text)) && Concat(pieces) <= text
    requires k < |pieces| && Piece(pieces[k]) && i < |Lines(text)| && decode(Lines(text)[i]).Said?
    requires Says(decode, pieces[k], decode(Lines(text)[i]).item.id)
    ensures Lies(Lines(text), pieces, k, i, offset) && decode(pieces[k]) == decode(Lines(text)[i])
  {
    hide Lines;
    var j;
    j, offset := PieceSays(decode, text, pieces, k);
    assert Says(decode, Lines(text)[j], decode(Lines(text)[i]).item.id);
    assert i == j;
  }

  /** Every line that says something is heard before any line after it is. */
  predicate HeardInTurn(decode: Decoder, pieces: seq<string>, lines: seq<string>) {
    forall i, j :: 0 <= i < j < |lines| && decode(lines[i]).Said? && decode(lines[j]).Said? && Heard(decode, pieces, lines[j])
      ==> Heard(decode, pieces, lines[i])
  }

  lemma NewsInTurn(decode: Decoder, text: string, pieces: seq<string>, k: nat)
    requires AllWhole(decode, Lines(text)) && AllMute(decode, Lines(text)) && SaidOnce(decode, Lines(text)) && Concat(pieces) <= text
    requires (forall l :: 0 <= l < |pieces| ==> Piece(pieces[l])) && HeardInTurn(decode, pieces, Lines(text))
    requires k < |pieces| && News(decode, pieces, k)
    ensures Follows(decode, pieces, Lines(text), k)
  {
    hide Lines;
    var lines := Lines(text);
    var i, o := PieceSays(decode, text, pieces, k);
    assert Heard(decode, pieces, lines[i]);
    assert First(decode, lines, i, decode(pieces[k]).item);
    forall h | 0 <= h < i && decode(lines[h]).Said? ensures SaidBefore(decode, pieces, k, decode(lines[h]).item.id) {
      assert Heard(decode, pieces, lines[h]);
      var l :| 0 <= l < |pieces| && decode(pieces[l]) == decode(lines[h]);
      var p := SaysItsLine(decode, text, pieces, l, h);
      LinesInOrder(lines, pieces, l, h, p, k, i, o);
      assert Says(decode, pieces[l], decode(lines[h]).item.id);
    }
    assert NoneMissing(decode, pieces, lines, k, i);
  }

  lemma OnlyLine(decode: Decoder, lines: seq<string>, i: nat, j: nat)
    requires SaidOnce(decode, lines) && i < |lines| && j < |lines|
    requires decode(lines[i]).Said? && Says(decode, lines[j], decode(lines[i]).item.id)
    ensures i == j
  {
  }

  /** The first piece to say an id. */
  lemma {:induction false} FirstSays(decode: Decoder, pieces: seq<string>, k: nat) returns (first: nat)
    requires k < |pieces| && decode(pieces[k]).Said?
    ensures first <= k && News(decode, pieces, first) && decode(pieces[first]).item.id == decode(pieces[k]).item.id
    decreases k
  {
    first := k;
    if j :| 0 <= j < k && Says(decode, pieces[j], decode(pieces[k]).item.id) { first := FirstSays(decode, pieces, j); }
  }

  lemma InTurnByNews(decode: Decoder, text: string, pieces: seq<string>, i: nat, j: nat)
    requires AllWhole(decode, Lines(text)) && AllMute(decode, Lines(text)) && SaidOnce(decode, Lines(text)) && Concat(pieces) <= text
    requires (forall l :: 0 <= l < |pieces| ==> Piece(pieces[l])) && AllFollow(decode, pieces, Lines(text))
    requires i < j < |Lines(text)| && decode(Lines(text)[i]).Said? && decode(Lines(text)[j]).Said? && Heard(decode, pieces, Lines(text)[j])
    ensures Heard(decode, pieces, Lines(text)[i])
  {
    hide Lines, Concat, AllWhole, AllMute, SaidOnce, Piece, Lies;
    var lines := Lines(text);
    var k :| 0 <= k < |pieces| && decode(pieces[k]) == decode(lines[j]);
    var first := FirstSays(decode, pieces, k);
    var o := SaysItsLine(decode, text, pieces, first, j);
    assert Follows(decode, pieces, lines, first);
    var f :| 0 <= f < |lines| && First(decode, lines, f, decode(pieces[first]).item) && NoneMissing(decode, pieces, lines, first, f);
    OnlyLine(decode, lines, j, f);
    assert SaidBefore(decode, pieces, first, decode(lines[i]).item.id);
    var l :| 0 <= l < first && Says(decode, pieces[l], decode(lines[i]).item.id);
    var p := SaysItsLine(decode, text, pieces, l, i);
  }

  /**
   Exactly when a read that races the writer is as good as one of the finished log: its messages
   begin the log's when no message is heard behind a lost one, that is, behind a line that says
   something and that no piece decodes to. A line cut just before its line feed is not lost.
   */
  lemma RacingReadBegins(decode: Decoder, text: string, pieces: seq<string>)
    requires AllWhole(decode, Lines(text)) && AllMute(decode, Lines(text)) && SaidOnce(decode, Lines(text))
    requires Concat(pieces) <= text && forall k :: 0 <= k < |pieces| ==> Piece(pieces[k])
    requires Scan(decode, pieces).Some? && Scan(decode, Lines(text)).Some?
    ensures Scan(decode, pieces).value.messages <= Scan(decode, Lines(text)).value.messages <==>
      HeardInTurn(decode, pieces, Lines(text))
  {
    hide Lines, Scan;
    var lines := Lines(text);
    BeginsExactly(decode, pieces, lines);
    if HeardInTurn(decode, pieces, lines) {
      forall k | 0 <= k < |pieces| && News(decode, pieces, k) ensures Follows(decode, pieces, lines, k) { NewsInTurn(decode, text, pieces, k); }
    }
    if AllFollow(decode, pieces, lines) {
      forall i, j | 0 <= i < j < |lines| && decode(lines[i]).Said? && decode(lines[j]).Said? && Heard(decode, pieces, lines[j])
        ensures Heard(decode, pieces, lines[i])
      {
        InTurnByNews(decode, text, pieces, i, j);
      }
    }
  }
}
