/**
 The desktop connection's framing (scripts/codex_source.py, DesktopIPC.read, write and call):
 length-prefixed frames over a byte stream that arrives in arbitrary non-empty chunks, and a
 call's wait for its own response among whatever else arrives. What a frame says, its JSON,
 is given by a decoder; a deadline is a bound on the frames awaited.
 */
module Frames {
  import opened Journal

  type Byte = b: nat | b < 256

  const MAX := 64 * 1024 * 1024

  // ---------------------------------------------------------------- lengths

  /** struct.pack('<I', n) */
  function Pack(n: nat): (bytes: seq<Byte>)
    requires n < 0x1_0000_0000
    ensures |bytes| == 4
  {
    [n % 256, n / 256 % 256, n / 65536 % 256, n / 16777216]
  }

  /** struct.unpack('<I', bytes) */
  function Unpack(bytes: seq<Byte>): nat
    requires |bytes| == 4
  {
    var a: nat, b: nat, c: nat, d: nat := bytes[0], bytes[1], bytes[2], bytes[3];
    a + 256 * b + 65536 * c + 16777216 * d
  }

  lemma PackedLength(n: nat)
    requires n < 0x1_0000_0000
    ensures Unpack(Pack(n)) == n
  {
    var a := n / 256;
    var b := a / 256;
    assert n == 256 * a + n % 256 && a == 256 * b + a % 256 && b == 256 * (b / 256) + b % 256;
    assert n / 65536 == b && n / 16777216 == b / 256;
  }

  function Weight(k: nat): (w: nat)
    ensures w > 0
  {
    if k == 0 then 1 else 256 * Weight(k - 1)
  }

  /** Little-endian: the byte at k counts for 256 to the k, so the first is the lowest. */
  lemma LowestFirst(n: nat, k: nat)
    requires n < 0x1_0000_0000 && k < 4
    ensures Pack(n)[k] == n / Weight(k) % 256
  {
    assert Weight(1) == 256 && Weight(2) == 65536 && Weight(3) == 16777216;
  }

  // ---------------------------------------------------------------- frames

  predicate Fits(frame: seq<Byte>) {
    0 < |frame| <= MAX
  }

  function Encode(frame: seq<Byte>): seq<Byte>
    requires |frame| < 0x1_0000_0000
  {
    Pack(|frame|) + frame
  }

  function Stream(frames: seq<seq<Byte>>): seq<Byte>
    requires forall f :: f in frames ==> Fits(f)
  {
    if frames == [] then []
    else
      assert frames[0] in frames && Fits(frames[0]);
      Encode(frames[0]) + Stream(frames[1..])
  }

  /** The next frame of a stream, or why there is none. */
  datatype Next = Frame(frame: seq<Byte>, rest: seq<Byte>) | Closed | Invalid(rest: seq<Byte>)

  function Parse(stream: seq<Byte>): Next {
    if |stream| < 4 then Closed
    else
      var size := Unpack(stream[..4]);
      if size == 0 || size > MAX then Invalid(stream[4..])
      else if |stream| < 4 + size then Closed
      else Frame(stream[4..4 + size], stream[4 + size..])
  }

  function ParseAll(stream: seq<Byte>): seq<seq<Byte>>
    decreases |stream|
  {
    match Parse(stream)
    case Frame(frame, rest) => [frame] + ParseAll(rest)
    case _ => []
  }

  lemma ParseEncoded(frame: seq<Byte>, rest: seq<Byte>)
    requires Fits(frame)
    ensures Parse(Encode(frame) + rest) == Frame(frame, rest)
  {
    var stream := Encode(frame) + rest;
    PackedLength(|frame|);
    assert stream[..4] == Pack(|frame|);
    assert stream[4..4 + |frame|] == frame && stream[4 + |frame|..] == rest;
  }

  /** Every sequence of frames within the size limit is recovered exactly. */
  lemma {:induction false} RoundTrip(frames: seq<seq<Byte>>)
    requires forall f :: f in frames ==> Fits(f)
    ensures ParseAll(Stream(frames)) == frames
  {
    if frames != [] {
      ParseEncoded(frames[0], Stream(frames[1..]));
      RoundTrip(frames[1..]);
    }
  }

  lemma CutFrame(last: seq<Byte>, cut: seq<Byte>)
    requires Fits(last) && cut <= Encode(last) && |cut| < |Encode(last)|
    ensures Parse(cut) == Closed
  {
    if |cut| >= 4 {
      PackedLength(|last|);
      assert cut[..4] == Encode(last)[..4] == Pack(|last|);
    }
  }

  /** A stream cut off inside a frame yields the frames before it and nothing of that one. */
  lemma {:induction false} CutStream(frames: seq<seq<Byte>>, last: seq<Byte>, cut: seq<Byte>)
    requires (forall f :: f in frames ==> Fits(f)) && Fits(last)
    requires cut <= Encode(last) && |cut| < |Encode(last)|
    ensures ParseAll(Stream(frames) + cut) == frames
  {
    hide Parse, Pack, Unpack;
    if frames == [] {
      assert Stream(frames) + cut == cut;
      CutFrame(last, cut);
    } else {
      var rest := Stream(frames[1..]) + cut;
      ParseEncoded(frames[0], rest);
      assert Stream(frames) + cut == Encode(frames[0]) + rest;
      CutStream(frames[1..], last, cut);
      assert ParseAll(Encode(frames[0]) + rest) == [frames[0]] + ParseAll(rest);
    }
  }

  // ---------------------------------------------------------------- calls

  datatype Message =
    | Discovery(request: nat)
    | Response(request: nat, success: bool, name: string, owner: Option<nat>)
    | Other

  type Decoder = seq<Byte> -> Option<Message>

  datatype Ask = Ask(request: nat, name: string, target: Option<nat>)

  datatype Outcome = Returned(response: Message) | Declined(response: Message) | Mismatched | Broken | TimedOut

  predicate IsAnswer(ask: Ask, m: Message) {
    m.Response? && m.request == ask.request
  }

  function Verdict(ask: Ask, m: Message): Outcome
    requires IsAnswer(ask, m)
  {
    if !m.success then Declined(m)
    else if m.name != ask.name || m.owner.None? then Mismatched
    else if ask.target.Some? && m.owner != ask.target then Mismatched
    else Returned(m)
  }

  /** What a call makes of the stream: its outcome, and the discovery requests declined so far. */
  datatype Exchange = Exchange(outcome: Outcome, refused: seq<nat>)

  function Await(decode: Decoder, ask: Ask, stream: seq<Byte>, patience: nat, refused: seq<nat>): Exchange {
    if patience == 0 then Exchange(TimedOut, refused)
    else match Parse(stream)
      case Frame(frame, rest) =>
        (match decode(frame)
         case None => Exchange(Broken, refused)
         case Some(m) =>
           var now := if m.Discovery? then refused + [m.request] else refused;
           if IsAnswer(ask, m) then Exchange(Verdict(ask, m), now) else Await(decode, ask, rest, patience - 1, now))
      case _ => Exchange(Broken, refused)
  }

  /** The messages before the first frame that cannot be decoded. */
  function Decoded(decode: Decoder, frames: seq<seq<Byte>>): seq<Message> {
    if frames == [] || decode(frames[0]).None? then [] else [decode(frames[0]).value] + Decoded(decode, frames[1..])
  }

  predicate Decisive(outcome: Outcome) {
    outcome.Returned? || outcome.Declined? || outcome.Mismatched?
  }

  /** The k-th message is the call's answer and no earlier one is. */
  predicate FirstAnswer(ask: Ask, messages: seq<Message>, k: nat) {
    k < |messages| && IsAnswer(ask, messages[k]) && forall j :: 0 <= j < k ==> !IsAnswer(ask, messages[j])
  }

  lemma {:induction false} AwaitIsFirst(decode: Decoder, ask: Ask, stream: seq<Byte>, patience: nat, refused: seq<nat>) returns (k: nat)
    requires Decisive(Await(decode, ask, stream, patience, refused).outcome)
    ensures var messages := Decoded(decode, ParseAll(stream));
      FirstAnswer(ask, messages, k) && Await(decode, ask, stream, patience, refused).outcome == Verdict(ask, messages[k])
    decreases patience
  {
    var next := Parse(stream);
    var m := decode(next.frame).value;
    if IsAnswer(ask, m) {
      k := 0;
    } else {
      var rest := AwaitIsFirst(decode, ask, next.rest, patience - 1, if m.Discovery? then refused + [m.request] else refused);
      k := rest + 1;
      assert Decoded(decode, ParseAll(stream)) == [m] + Decoded(decode, ParseAll(next.rest));
    }
  }

  /**
   A call returns only the first response carrying its own request id, and only if that
   succeeded, is for its own method and comes from an owner, its target when it has one.
   */
  lemma CallReturnsItsOwn(decode: Decoder, ask: Ask, stream: seq<Byte>, patience: nat, refused: seq<nat>) returns (k: nat)
    requires Await(decode, ask, stream, patience, refused).outcome.Returned?
    ensures var messages := Decoded(decode, ParseAll(stream)); var m := Await(decode, ask, stream, patience, refused).outcome.response;
      && FirstAnswer(ask, messages, k) && messages[k] == m
      && m.success && m.name == ask.name && m.owner.Some? && (ask.target.Some? ==> m.owner == ask.target)
  {
    k := AwaitIsFirst(decode, ask, stream, patience, refused);
  }

  /** An explicit rejection, too, is one of the call's own responses. */
  lemma RejectionIsItsOwn(decode: Decoder, ask: Ask, stream: seq<Byte>, patience: nat, refused: seq<nat>) returns (k: nat)
    requires Await(decode, ask, stream, patience, refused).outcome.Declined?
    ensures var messages := Decoded(decode, ParseAll(stream)); var m := Await(decode, ask, stream, patience, refused).outcome.response;
      FirstAnswer(ask, messages, k) && messages[k] == m && !m.success
  {
    k := AwaitIsFirst(decode, ask, stream, patience, refused);
  }

  /** The requests of the discovery messages, in order. */
  function Discoveries(messages: seq<Message>): seq<nat> {
    if messages == [] then []
    else (if messages[0].Discovery? then [messages[0].request] else []) + Discoveries(messages[1..])
  }

  lemma VerdictIs(ask: Ask)
    ensures forall m :: IsAnswer(ask, m) ==>
      && m.Response?
      && var right := m.name == ask.name && m.owner.Some? && (ask.target.Some? ==> m.owner == ask.target);
        Verdict(ask, m) == if !m.success then Outcome.Declined(m) else if right then Returned(m) else Mismatched
  {
  }

  /**
   A first answer that comes in time decides the call, whatever else the stream holds: an unsuccessful
   one rejects it, a successful one for its own method from an owner, its target if it has one, is
   what it returns, and any other is a mismatch; every discovery request before it is declined.
   */
  lemma {:induction false} FirstAnswerDecides(decode: Decoder, ask: Ask, stream: seq<Byte>, patience: nat, refused: seq<nat>, k: nat)
    requires FirstAnswer(ask, Decoded(decode, ParseAll(stream)), k) && k < patience
    ensures var messages := Decoded(decode, ParseAll(stream)); var m := messages[k];
      var exchange := Await(decode, ask, stream, patience, refused);
      var right := m.name == ask.name && m.owner.Some? && (ask.target.Some? ==> m.owner == ask.target);
      && (!m.success ==> exchange.outcome == Outcome.Declined(m))
      && (m.success && right ==> exchange.outcome == Returned(m))
      && (m.success && !right ==> exchange.outcome == Mismatched)
      && exchange.refused == refused + Discoveries(messages[..k])
    decreases k
  {
    hide Parse, IsAnswer, Verdict;
    VerdictIs(ask);
    var messages := Decoded(decode, ParseAll(stream));
    var next := Parse(stream);
    assert messages == [messages[0]] + Decoded(decode, ParseAll(next.rest));
    if k > 0 {
      var first := messages[0];
      var now := if first.Discovery? then refused + [first.request] else refused;
      var rest := Decoded(decode, ParseAll(next.rest));
      assert rest == messages[1..] && messages[..k][1..] == rest[..k - 1];
      FirstAnswerDecides(decode, ask, next.rest, patience - 1, now, k - 1);
    }
  }

  // ---------------------------------------------------------------- the program

  class Connection {
    var incoming: seq<Byte>          // what the peer has sent and will send before closing
    var written: seq<seq<Byte>>      // the frames written
    var refused: seq<nat>            // the discovery requests declined

    constructor (incoming: seq<Byte>)
      ensures this.incoming == incoming && written == [] && refused == []
    {
      this.incoming := incoming;
      written, refused := [], [];
    }

    /** sock.recv: some of what has arrived, at least a byte unless the peer has closed. */
    method Receive(count: nat) returns (chunk: seq<Byte>)
      requires count > 0
      modifies `incoming
      ensures old(incoming) == chunk + incoming && |chunk| <= count && (chunk == [] <==> old(incoming) == [])
    {
      if incoming == [] { return []; }
      var arrived: nat := *;
      var n := if 0 < arrived <= count && arrived <= |incoming| then arrived else 1;
      chunk := incoming[..n];
      incoming := incoming[n..];
    }

    /** DesktopIPC.read: exactly count bytes, however they are cut into chunks. */
    method Read(count: nat) returns (data: seq<Byte>, ok: bool)
      modifies `incoming
      ensures ok <==> count <= |old(incoming)|
      ensures ok ==> data == old(incoming)[..count] && incoming == old(incoming)[count..]
    {
      data := [];
      while |data| < count
        invariant |data| <= count && old(incoming) == data + incoming
      {
        var chunk := Receive(count - |data|);
        if chunk == [] { return data, false; }
        data := data + chunk;
      }
      return data, true;
    }

    method ReadFrame() returns (next: Next)
      modifies `incoming
      ensures var parsed := Parse(old(incoming));
        next == parsed && (parsed.Frame? || parsed.Invalid? ==> incoming == parsed.rest)
      ensures next.Invalid? <==> |old(incoming)| >= 4 && !(0 < Unpack(old(incoming)[..4]) <= 64 * 1024 * 1024)
      ensures next.Frame? <==> |old(incoming)| >= 4 && 0 < Unpack(old(incoming)[..4]) <= 64 * 1024 * 1024
                               && |old(incoming)| >= 4 + Unpack(old(incoming)[..4])
    {
      var header, ok := Read(4);
      if !ok { return Closed; }
      var size := Unpack(header);
      if size == 0 || size > MAX { return Invalid(incoming); }
      ghost var after := incoming;
      var frame;
      frame, ok := Read(size);
      if !ok { return Closed; }
      assert after[..size] == old(incoming)[4..4 + size] && after[size..] == old(incoming)[4 + size..];
      return Frame(frame, incoming);
    }

    /** Everything the peer sends before it closes or misbehaves. */
    method ReadFrames() returns (frames: seq<seq<Byte>>)
      modifies `incoming
      ensures frames == ParseAll(old(incoming))
    {
      frames := [];
      var open := true;
      while open
        invariant open ==> ParseAll(old(incoming)) == frames + ParseAll(incoming)
        invariant !open ==> frames == ParseAll(old(incoming))
        decreases open, |incoming|
      {
        var next := ReadFrame();
        if next.Frame? { frames := frames + [next.frame]; } else { open := false; }
      }
    }

    /** DesktopIPC.call, with the request already encoded. */
    method Call(decode: Decoder, ask: Ask, request: seq<Byte>, patience: nat) returns (outcome: Outcome)
      modifies this
      ensures Exchange(outcome, refused) == Await(decode, ask, old(incoming), patience, old(refused))
      ensures written == old(written) + [request]
    {
      written := written + [request];
      var left: nat := patience;
      while left > 0
        invariant written == old(written) + [request]
        invariant Await(decode, ask, old(incoming), patience, old(refused)) == Await(decode, ask, incoming, left, refused)
      {
        var next := ReadFrame();
        if !next.Frame? || decode(next.frame).None? { return Broken; }
        var m := decode(next.frame).value;
        if m.Discovery? { refused := refused + [m.request]; }
        if IsAnswer(ask, m) { return Verdict(ask, m); }
        left := left - 1;
      }
      return TimedOut;
    }
  }
}
