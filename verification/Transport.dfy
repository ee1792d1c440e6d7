/**
 Transaction rewriting (internal/delivery/transport.go, and the keys that connector.go and
 reconcile.go hand it): what makes a retried timeline request the same request, and no other.
 Digests are injective, so each is modelled by what it digests.
 */
module Transport {
  import M = Mirror

  /** One element of a digested tuple. */
  datatype Atom = Word(word: string) | IdOf(id: M.Id) | PartId(part: nat) | Number(number: nat) | Hash(hash: M.Source) | Rendered(content: M.Content)

  /** A delivery key: a framework message id as it is, or the digest of a tuple. */
  datatype Name = Plain(id: M.Id) | Digest(atoms: seq<Atom>)

  /** The key each request carries (dispatch for originals, applySourceEdit, presentationUpsert). */
  function NameOf(key: M.Key): Name {
    match key
    case Original(id, part) => if part == 0 then Plain(id) else Digest([Word("message-part-v1"), IdOf(id), PartId(part)])
    case Edit(id, part, generation, hash, content) =>
      Digest([Word("source-edit-v2"), IdOf(id), PartId(part), Number(generation), Hash(hash), Rendered(content)])
    case Presentation(id, part, content) =>
      if part == 0 then Digest([Word("presentation"), IdOf(id), Rendered(content)])
      else Digest([Word("presentation-part-v1"), IdOf(id), PartId(part), Rendered(content)])
  }

  /** Different requests carry different keys, whatever kinds of request they are. */
  lemma NamesDiffer(a: M.Key, b: M.Key)
    ensures NameOf(a) == NameOf(b) <==> a == b
  {
    if NameOf(a) == NameOf(b) && NameOf(a).Digest? {
      var x, y := NameOf(a).atoms, NameOf(b).atoms;
      assert |x| == |y| && x[0] == y[0] && x[1] == y[1] && x[2] == y[2];
      if |x| == 4 { assert x[3] == y[3]; }
      if |x| == 6 { assert x[3] == y[3] && x[4] == y[4] && x[5] == y[5]; }
    }
  }

  // ---------------------------------------------------------------- URLs

  /** A decoded path segment: text, or the transaction the transport makes of a room and a key. */
  datatype Segment = Text(text: string) | Transaction(room: Spelled, name: Name)

  /**
   A segment as it is escaped: the way net/url escapes it, or in another spelling, in which the
   segment may hide slashes and so stand for several segments of the decoded path.
   */
  datatype Spelled = Usual(segment: Segment) | Other(spelling: nat, first: Segment, others: seq<Segment>)

  /** The decoded path, and the escaped one when that is not the usual one (url.URL's RawPath). */
  datatype Url = Url(path: seq<Segment>, raw: M.Option<seq<Spelled>>)

  datatype Request = Request(put: bool, url: Url)

  function Meaning(spelled: Spelled): seq<Segment> {
    match spelled
    case Usual(segment) => [segment]
    case Other(_, first, others) => [first] + others
  }

  function Decoded(raw: seq<Spelled>): seq<Segment> {
    if raw == [] then [] else Decoded(raw[..|raw| - 1]) + Meaning(raw[|raw| - 1])
  }

  function Usually(path: seq<Segment>): (raw: seq<Spelled>)
    ensures |raw| == |path| && forall k :: 0 <= k < |path| ==> raw[k] == Usual(path[k])
  {
    seq(|path|, k requires 0 <= k < |path| => Usual(path[k]))
  }

  /** EscapedPath: the raw path if it encodes the path. This is what goes out. */
  function EscapedPath(url: Url): seq<Spelled> {
    if url.raw.Some? && Decoded(url.raw.value) == url.path then url.raw.value else Usually(url.path)
  }

  /** What net/url makes and mautrix hands over: a path, and a raw path that encodes it. */
  predicate Proper(url: Url) {
    url.path != [] && (url.raw.Some? ==> Decoded(url.raw.value) == url.path)
  }

  // ---------------------------------------------------------------- the transport

  /** Hosted homeservers prefix the path; only its last nine segments matter. */
  function Tail(path: seq<Spelled>): seq<Spelled> {
    if |path| > 9 then path[|path| - 9..] else path
  }

  predicate Is(spelled: Spelled, text: string) {
    spelled == Usual(Text(text))
  }

  predicate Timeline(path: seq<Spelled>) {
    var parts := Tail(path);
    && |parts| == 9
    && Is(parts[1], "_matrix") && Is(parts[2], "client") && (Is(parts[3], "v3") || Is(parts[3], "r0"))
    && Is(parts[4], "rooms") && Is(parts[6], "send")
    && (Is(parts[7], "m.room.message") || Is(parts[7], "m.room.encrypted"))
  }

  /** The path of a timeline request to a room, behind whatever a homeserver puts before it. */
  function TimelinePath(prefix: seq<Spelled>, version: string, room: Spelled, kind: string, transaction: Spelled): seq<Spelled> {
    prefix + [Usual(Text("_matrix")), Usual(Text("client")), Usual(Text(version)), Usual(Text("rooms")), room,
              Usual(Text("send")), Usual(Text(kind)), transaction]
  }

  predicate Sends(version: string, kind: string) {
    (version == "v3" || version == "r0") && (kind == "m.room.message" || kind == "m.room.encrypted")
  }

  ghost predicate IsSend(path: seq<Spelled>, prefix: seq<Spelled>, version: string, room: Spelled, kind: string, transaction: Spelled) {
    prefix != [] && Sends(version, kind) && path == TimelinePath(prefix, version, room, kind, transaction)
  }

  /** Plain or encrypted messages, in either version of the client API: those are the timeline requests. */
  lemma TimelineExactly(path: seq<Spelled>)
    ensures Timeline(path) <==>
      exists prefix, version, room, kind, transaction :: IsSend(path, prefix, version, room, kind, transaction)
  {
    hide Timeline;
    if Timeline(path) { TimelineIsSend(path); }
    if prefix, version, room, kind, transaction :| IsSend(path, prefix, version, room, kind, transaction) {
      TimelineRoom(prefix, version, room, kind, transaction);
    }
  }

  lemma TimelineIsSend(path: seq<Spelled>)
    requires Timeline(path)
    ensures exists prefix, version, room, kind, transaction :: IsSend(path, prefix, version, room, kind, transaction)
  {
    var n := |path|;
    var version, kind := path[n - 6].segment.text, path[n - 2].segment.text;
    assert path == TimelinePath(path[..n - 8], version, path[n - 4], kind, path[n - 1]);
    assert IsSend(path, path[..n - 8], version, path[n - 4], kind, path[n - 1]);
  }

  lemma TimelineRoom(prefix: seq<Spelled>, version: string, room: Spelled, kind: string, transaction: Spelled)
    requires prefix != [] && Sends(version, kind)
    ensures var path := TimelinePath(prefix, version, room, kind, transaction); Timeline(path) && Room(path) == room
  {
    var path := TimelinePath(prefix, version, room, kind, transaction);
    assert Tail(path) == path[|path| - 9..];
  }

  function Room(path: seq<Spelled>): Spelled
    requires Timeline(path)
  {
    Tail(path)[5]
  }

  function SetLast<T>(path: seq<T>, last: T): seq<T> {
    if path == [] then [last] else path[|path| - 1 := last]
  }

  /** RoundTrip: the request as it goes out, with both of its paths ending in the transaction. */
  method RoundTrip(request: Request, key: M.Option<Name>) returns (sent: Request)
    ensures sent == Rewritten(request, key)
  {
    sent := request;
    var parts := EscapedPath(request.url);
    if |parts| > 9 { parts := parts[|parts| - 9..]; }
    if key.Some? && request.put && |parts| == 9
      && Is(parts[1], "_matrix") && Is(parts[2], "client") && (Is(parts[3], "v3") || Is(parts[3], "r0"))
      && Is(parts[4], "rooms") && Is(parts[6], "send")
      && (Is(parts[7], "m.room.message") || Is(parts[7], "m.room.encrypted"))
    {
      var transaction := Transaction(parts[5], key.value);
      var url := request.url.(path := SetLast(request.url.path, transaction));
      if url.raw.Some? { url := url.(raw := M.Some(SetLast(url.raw.value, Usual(transaction)))); }
      sent := sent.(url := url);
    }
  }

  function Rewritten(request: Request, key: M.Option<Name>): Request {
    var escaped := EscapedPath(request.url);
    if key.Some? && request.put && Timeline(escaped) then
      var transaction := Transaction(Room(escaped), key.value);
      var raw := request.url.raw;
      Request(true, Url(SetLast(request.url.path, transaction),
                        if raw.Some? then M.Some(SetLast(raw.value, Usual(transaction))) else raw))
    else request
  }

  /** With its last segment replaced, a raw path still encodes the path if that segment hid no slash. */
  lemma LastEncodes(raw: seq<Spelled>, segment: Segment)
    requires raw != []
    ensures var path := Decoded(raw);
      path != [] && (Decoded(SetLast(raw, Usual(segment))) == SetLast(path, segment) <==> |Meaning(raw[|raw| - 1])| == 1)
  {
    var last := |raw| - 1;
    var before := Decoded(raw[..last]);
    var meaning := Meaning(raw[last]);
    assert SetLast(raw, Usual(segment))[..last] == raw[..last];
    assert Decoded(raw) == before + meaning && Decoded(SetLast(raw, Usual(segment))) == before + [segment];
    if |meaning| == 1 { assert SetLast(before + meaning, segment) == before + [segment]; }
  }

  /**
   Of a keyed timeline request, only the transaction changes as it goes out, exactly unless its own
   transaction was spelled to hide a slash: then the two paths no longer agree, and net/url
   drops the raw one. Any other request goes out as it is.
   */
  lemma OnlyTheTransaction(request: Request, key: M.Option<Name>)
    requires Proper(request.url)
    ensures var sent := Rewritten(request, key); var was := EscapedPath(request.url);
      && sent.put == request.put && was != []
      && if key.Some? && request.put && Timeline(was) then
           EscapedPath(sent.url) == was[|was| - 1 := Usual(Transaction(Room(was), key.value))] <==> |Meaning(was[|was| - 1])| == 1
         else sent == request
  {
    var was := EscapedPath(request.url);
    if key.Some? && request.put && Timeline(was) {
      var transaction := Transaction(Room(was), key.value);
      if request.url.raw.Some? {
        LastEncodes(was, transaction);
        if |Meaning(was[|was| - 1])| != 1 { HidingIsShorter(was); }
      }
    }
  }

  lemma {:induction false} DecodedIsLonger(raw: seq<Spelled>)
    ensures |Decoded(raw)| >= |raw|
  {
    if raw != [] { DecodedIsLonger(raw[..|raw| - 1]); }
  }

  /** A raw path that hides a slash has fewer segments than the path. */
  lemma HidingIsShorter(raw: seq<Spelled>)
    requires raw != [] && |Meaning(raw[|raw| - 1])| != 1
    ensures |Decoded(raw)| > |raw|
  {
    DecodedIsLonger(raw[..|raw| - 1]);
  }

  /**
   Two keyed timeline requests go out with the same transaction exactly when they are for the
   same room and the same original, edit or presentation, whatever their bodies, their own
   transactions and their spelling.
   */
  lemma SameTransactionExactly(a: Request, b: Request, k: M.Key, l: M.Key)
    requires a.put && b.put && Proper(a.url) && Proper(b.url)
    requires Timeline(EscapedPath(a.url)) && Timeline(EscapedPath(b.url))
    ensures var x := EscapedPath(Rewritten(a, M.Some(NameOf(k))).url); var y := EscapedPath(Rewritten(b, M.Some(NameOf(l))).url);
      x != [] && y != [] &&
      (x[|x| - 1] == y[|y| - 1] <==> Room(EscapedPath(a.url)) == Room(EscapedPath(b.url)) && k == l)
  {
    NamesDiffer(k, l);
    EndsInTransaction(a, NameOf(k));
    EndsInTransaction(b, NameOf(l));
  }

  lemma EndsInTransaction(a: Request, name: Name)
    requires a.put && Proper(a.url) && Timeline(EscapedPath(a.url))
    ensures var x := EscapedPath(Rewritten(a, M.Some(name)).url);
      x != [] && x[|x| - 1] == Usual(Transaction(Room(EscapedPath(a.url)), name))
  {
  }
}
