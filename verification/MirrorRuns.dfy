/**
 Whole runs of a room: in either configuration, skipping a delivered version refines replaying it;
 and the branch notices of a room are exactly the branch changes it announced.
 */
module MirrorRuns {
  import opened Mirror
  import opened MirrorResume
  import opened MirrorEvents
  import opened MirrorExact
  import opened MirrorOff
  import opened MirrorRoom

  // ---------------------------------------------------------------- skip refines replay

  /** The room and the source's versions so far; the last is the current one. */
  datatype Bridge = Bridge(room: Room, source: seq<seq<Message>>)

  /**
   The source moves to a new version; a poll handles the current one, cut off anywhere; the source
   moves while it is read, so that whatever messages were read are dispatched without a fingerprint;
   or the outbox ties one of the user's own messages to a source message that has no row.
   */
  datatype Happening =
    | Move(messages: seq<Message>)
    | Poll(budget: nat)
    | Race(read: seq<Message>, budget: nat, messages: seq<Message>)
    | Tie(message: nat, text: Content, attachments: bool, mine: bool)

  function Current(b: Bridge): nat
    requires b.source != []
  {
    |b.source| - 1
  }

  predicate Skips(b: Bridge)
    requires b.source != []
  {
    b.room.delivered == Some(Current(b))
  }

  predicate Possible(b: Bridge, h: Happening) {
    b.source != [] &&
    match h
    case Move(messages) => DistinctIds(messages)
    case Poll(_) => true
    case Race(read, _, messages) => DistinctIds(read) && DistinctIds(messages)
    case Tie(message, _, _, _) => RowsOf(b.room.store.rows, Of(message)) == []
  }

  /** An unchanged version is skipped; any other is dispatched. */
  function Happen(edits: bool, b: Bridge, h: Happening): Bridge
    requires Possible(b, h)
  {
    match h
    case Move(messages) => b.(source := b.source + [messages])
    case Poll(budget) =>
      if Skips(b) then b
      else b.(room := AttemptRoom(edits, b.room, b.source[Current(b)], Current(b), budget))
    case Race(read, budget, messages) =>
      var room := AttemptRoom(edits, b.room, read, 0, budget);
      Bridge(room.(delivered := b.room.delivered), b.source + [messages])
    case Tie(message, text, attachments, mine) =>
      b.(room := b.room.(store := WithOwn(b.room.store, message, text, attachments, mine)))
  }

  predicate AllPossible(edits: bool, b: Bridge, happenings: seq<Happening>)
    decreases |happenings|
  {
    happenings == [] ||
    (Possible(b, happenings[0]) && AllPossible(edits, Happen(edits, b, happenings[0]), happenings[1..]))
  }

  function History(edits: bool, b: Bridge, happenings: seq<Happening>): Bridge
    requires AllPossible(edits, b, happenings)
    decreases |happenings|
  {
    if happenings == [] then b else History(edits, Happen(edits, b, happenings[0]), happenings[1..])
  }

  ghost predicate DeliveredMeansDone(edits: bool, b: Bridge) {
    && Well(b.room.store)
    && b.source != []
    && (forall v :: 0 <= v < |b.source| ==> DistinctIds(b.source[v]))
    && (b.room.delivered.Some? ==> b.room.delivered.value < |b.source|)
    && (Skips(b) ==> InPlace(edits, b.room, b.source[Current(b)]))
  }

  lemma PollKeeps(edits: bool, b: Bridge, budget: nat)
    requires DeliveredMeansDone(edits, b) && Possible(b, Poll(budget))
    ensures DeliveredMeansDone(edits, Happen(edits, b, Poll(budget)))
  {
    hide InPlace, DeliverIn, AttemptIn, CostIn, Well;
    var messages := b.source[Current(b)];
    if !Skips(b) {
      var events := RoomEvents(edits, b.room.branch, messages);
      RoomEventsCoherent(edits, b.room.branch, messages);
      AttemptResumesIn(edits, b.room.store, events, budget);
      if Succeeds(edits, b.room, messages) && budget > CostIn(edits, b.room.store, events) + (if edits then 1 else 0) {
        EnoughIsAllIn(edits, b.room.store, events, budget);
        EnoughIsAllIn(edits, b.room.store, events, CostIn(edits, b.room.store, events) + 2);
        DispatchedRoom(edits, b.room, messages, Current(b));
        assert AttemptRoom(edits, b.room, messages, Current(b), budget) == DispatchRoom(edits, b.room, messages, Current(b));
      }
    }
  }

  lemma RaceKeeps(edits: bool, b: Bridge, read: seq<Message>, budget: nat, messages: seq<Message>)
    requires DeliveredMeansDone(edits, b) && Possible(b, Race(read, budget, messages))
    ensures DeliveredMeansDone(edits, Happen(edits, b, Race(read, budget, messages)))
  {
    hide InPlace, DeliverIn, AttemptIn, CostIn, Well;
    RoomEventsCoherent(edits, b.room.branch, read);
    AttemptResumesIn(edits, b.room.store, RoomEvents(edits, b.room.branch, read), budget);
  }

  lemma DoneHasRow(s: Store, m: Message)
    requires |m.parts| > 0
    ensures Done(s, Part(m, 0)) ==> RowsOf(s.rows, Of(m.id)) != []
    ensures DoneOff(s, m, 0) ==> RowsOf(s.rows, Of(m.id)) != []
  {
    if RowsOf(s.rows, Of(m.id)) == [] {
      assert Scanned([], m) == [];
      assert Changes([], m, 0) == [];
      NormalOps(s, m, 0);
      assert Addition(m, 0)[1] in PlanFor(s, Part(m, 0)).ops;
    }
  }

  /** What is done stays done when a message that is none of it gets a row. */
  lemma TieKeepsDone(edits: bool, s: Store, next: Store, message: nat, messages: seq<Message>)
    requires RowsOf(s.rows, Of(message)) == [] && EventsDone(edits, s, messages)
    requires forall id: Id :: id != Of(message) ==> RowsOf(next.rows, id) == RowsOf(s.rows, id)
    requires next.accepted == s.accepted
    ensures EventsDone(edits, next, messages)
  {
    EventsAre(messages);
    forall e | e in EventsOf(messages) ensures if edits then Done(next, e) else DoneOff(next, e.message, e.index) {
      assert Part(e.message, 0) in EventsOf(messages);
      DoneHasRow(s, e.message);
      assert RowsOf(next.rows, Of(e.message.id)) == RowsOf(s.rows, Of(e.message.id));
    }
  }

  lemma TieKeeps(edits: bool, b: Bridge, h: Happening)
    requires h.Tie? && DeliveredMeansDone(edits, b) && Possible(b, h)
    ensures DeliveredMeansDone(edits, Happen(edits, b, h))
  {
    hide EventsDone;
    var s := b.room.store;
    var next := WithOwn(s, h.message, h.text, h.attachments, h.mine);
    forall id: Id ensures Distinct(RowsOf(next.rows, id)) { assert Distinct(RowsOf(s.rows, id)); }
    if Skips(b) { TieKeepsDone(edits, s, next, h.message, b.source[Current(b)]); }
  }

  lemma {:induction false} HistoryKeeps(edits: bool, b: Bridge, happenings: seq<Happening>)
    requires DeliveredMeansDone(edits, b) && AllPossible(edits, b, happenings)
    ensures DeliveredMeansDone(edits, History(edits, b, happenings))
    decreases |happenings|
  {
    if happenings != [] {
      match happenings[0] {
        case Move(messages) =>
        case Poll(budget) => PollKeeps(edits, b, budget);
        case Race(read, budget, messages) => RaceKeeps(edits, b, read, budget, messages);
        case Tie(_, _, _, _) => TieKeeps(edits, b, happenings[0]);
      }
      HistoryKeeps(edits, Happen(edits, b, happenings[0]), happenings[1..]);
    }
  }

  /**
   Skip refines replay, for either configuration: after any history of source changes, cut-off
   dispatches, racing reads and sends, if the current version's fingerprint is the delivered one, a
   full replay of it would succeed and change nothing: no row, no event, no checkpoint.
   */
  lemma SkipRefinesReplay(edits: bool, first: seq<Message>, happenings: seq<Happening>)
    requires DistinctIds(first)
    requires AllPossible(edits, Bridge(Room(Empty(), None, None), [first]), happenings)
    ensures var b := History(edits, Bridge(Room(Empty(), None, None), [first]), happenings);
      b.source != [] && (Skips(b) ==>
        var messages := b.source[Current(b)];
        Succeeds(edits, b.room, messages) && DispatchRoom(edits, b.room, messages, Current(b)) == b.room)
  {
    var start := Bridge(Room(Empty(), None, None), [first]);
    HistoryKeeps(edits, start, happenings);
    var b := History(edits, start, happenings);
    if Skips(b) { DoneRoom(edits, b.room, b.source[Current(b)], Current(b)); }
  }

  // ---------------------------------------------------------------- branch notices

  function Notices(timeline: seq<Sent>): nat {
    if timeline == [] then 0
    else Notices(timeline[..|timeline| - 1]) + (if timeline[|timeline| - 1].post.Notice? then 1 else 0)
  }

  lemma NoticesAfter(timeline: seq<Sent>, sent: Sent)
    ensures Notices(timeline + [sent]) == Notices(timeline) + (if sent.post.Notice? then 1 else 0)
  {
    assert (timeline + [sent])[..|timeline|] == timeline;
  }

  /** Nothing about notices is different. */
  ghost predicate SameNotices(s: Store, next: Store) {
    && Notices(next.timeline) == Notices(s.timeline)
    && (forall k: Key :: k.id.NoticeOf? ==> (k in next.accepted <==> k in s.accepted))
    && (forall c: Checkpoint :: RowsOf(next.rows, NoticeOf(c)) == RowsOf(s.rows, NoticeOf(c)))
  }

  predicate ForMessages(ops: seq<Op>) {
    forall op :: op in ops ==> if op.Send? then op.key.id.Of? && !op.post.Notice? else op.id.Of?
  }

  lemma EditsForMessages(m: Message, changes: seq<Change>)
    ensures ForMessages(Edits(m, changes)) && ForMessages(Saves(m, changes))
  {
    EditsAreSends(m, changes);
    forall op | op in Edits(m, changes) ensures op.Send? && op.key.id.Of? && !op.post.Notice? {
      var k :| 0 <= k < |changes| && Edits(m, changes)[k] == op;
    }
    forall op | op in Saves(m, changes) ensures op.Save? && op.id.Of? {
      var k :| 0 <= k < |changes| && Saves(m, changes)[k] == op;
    }
  }

  lemma AllForMessages(a: seq<Op>, b: seq<Op>)
    requires ForMessages(a) && ForMessages(b)
    ensures ForMessages(a + b)
  {
  }

  lemma PartOpsForMessages(s: Store, m: Message, index: nat)
    requires index < |m.parts|
    ensures ForMessages(PlanFor(s, Part(m, index)).ops)
  {
    var rows := RowsOf(s.rows, Of(m.id));
    var changes := Changes(rows, m, index);
    if Normal(rows, m, index) {
      NormalOps(s, m, index);
      EditsForMessages(m, changes);
      EditsForMessages(m, Marked(rows, m, index));
      AllForMessages(Saves(m, Marked(rows, m, index)), AdditionIf(rows, m, index));
      AllForMessages(Edits(m, changes), Saves(m, Marked(rows, m, index)) + AdditionIf(rows, m, index));
    } else {
      ScannedAll(rows, m);
      MineChanges(rows, m, index);
      EditsForMessages(m, Tombstones(Mine(StaleFor(rows, m, index))));
      EditsForMessages(m, Tombstones(StaleFor(rows, m, index)));
    }
  }

  lemma OffOpsForMessages(s: Store, m: Message, index: nat)
    requires index < |m.parts|
    ensures ForMessages(PlanOff(s, m, index).ops)
  {
  }

  lemma {:induction false} OpsKeepNotices(s: Store, ops: seq<Op>)
    requires ForMessages(ops)
    ensures SameNotices(s, Exec(s, ops))
    decreases |ops|
  {
    if ops != [] {
      assert ops[0] in ops;
      if ops[0].Send? { NoticesAfter(s.timeline, Sent(Some(ops[0].key), ops[0].post)); }
      assert SameNotices(s, Apply(s, ops[0]));
      OpsKeepNotices(Apply(s, ops[0]), ops[1..]);
    }
  }

  /** However it is cut off, delivering parts makes no notice. */
  lemma {:induction false} PartsKeepNotices(edits: bool, s: Store, events: seq<Event>, budget: nat)
    requires OnlyParts(events)
    ensures ValidIn(edits, events) && SameNotices(s, AttemptIn(edits, s, events, budget))
    decreases |events|
  {
    hide PlanFor, PlanOff, SameNotices, Notices;
    if events == [] {
      OpsKeepNotices(s, []);
    } else {
      var e, rest := events[0], events[1..];
      assert e in events && OnlyParts(rest);
      var plan := if edits then PlanFor(s, e) else PlanOff(s, e.message, e.index);
      if edits { PartOpsForMessages(s, e.message, e.index); } else { OffOpsForMessages(s, e.message, e.index); }
      if budget < |plan.ops| {
        OpsKeepNotices(s, plan.ops[..budget]);
      } else {
        OpsKeepNotices(s, plan.ops);
        if plan.ok {
          PartsKeepNotices(edits, Exec(s, plan.ops), rest, budget - |plan.ops|);
          NoticesStay(s, Exec(s, plan.ops), AttemptIn(edits, Exec(s, plan.ops), rest, budget - |plan.ops|));
        }
      }
    }
  }

  lemma NoticesStay(a: Store, b: Store, c: Store)
    requires SameNotices(a, b) && SameNotices(b, c)
    ensures SameNotices(a, c)
  {
  }

  /** The checkpoints whose notice the homeserver has accepted. */
  function Spent(s: Store): set<Checkpoint> {
    set k | k in s.accepted && k.id.NoticeOf? :: k.id.checkpoint
  }

  /** One notice for each of them; a notice that has a row is one of them. */
  ghost predicate NoticesKnown(s: Store) {
    && Notices(s.timeline) == |Spent(s)|
    && (forall k :: k in s.accepted && k.id.NoticeOf? ==> k == Original(k.id, 0))
    && (forall c: Checkpoint :: RowsOf(s.rows, NoticeOf(c)) != [] ==> Original(NoticeOf(c), 0) in s.accepted)
  }

  lemma SameIsKnown(s: Store, next: Store)
    requires NoticesKnown(s) && SameNotices(s, next)
    ensures NoticesKnown(next) && Spent(next) == Spent(s)
  {
    hide Notices;
    forall c: Checkpoint ensures c in Spent(next) <==> c in Spent(s) {
      if c in Spent(next) {
        var k :| k in next.accepted && k.id.NoticeOf? && k.id.checkpoint == c;
        assert k in s.accepted;
      }
      if c in Spent(s) {
        var k :| k in s.accepted && k.id.NoticeOf? && k.id.checkpoint == c;
        assert k in next.accepted;
      }
    }
    assert Spent(next) == Spent(s);
  }

  /** The notice's transaction is accepted, now or before. */
  lemma KnownAfter(s: Store, next: Store, c: Checkpoint)
    requires NoticesKnown(s)
    requires var key := Original(NoticeOf(c), 0);
      if key in s.accepted then next.timeline == s.timeline && next.accepted == s.accepted
      else next.timeline == s.timeline + [Sent(Some(key), Notice)] && next.accepted == s.accepted[key := |s.timeline|]
    requires forall d: Checkpoint :: d != c ==> RowsOf(next.rows, NoticeOf(d)) == RowsOf(s.rows, NoticeOf(d))
    ensures NoticesKnown(next) && Spent(next) == Spent(s) + {c}
  {
    hide Spent;
    var key := Original(NoticeOf(c), 0);
    SpentMore(s, next, key, c);
    NoticesAfter(s.timeline, Sent(Some(key), Notice));
    if key in s.accepted { SpentMore(s, s, key, c); }
  }

  /** A branch notice cut off after any of its two operations. */
  lemma AnnouncedOnce(s: Store, c: Checkpoint, k: nat)
    requires NoticesKnown(s) && k <= |PlanFor(s, Branch(c)).ops|
    requires k == 0 ==> PlanFor(s, Branch(c)).ops == []
    ensures var next := Exec(s, PlanFor(s, Branch(c)).ops[..k]); NoticesKnown(next) && Spent(next) == Spent(s) + {c}
  {
    hide NoticesKnown;
    var ops := PlanFor(s, Branch(c)).ops;
    if ops == [] {
      assert ops[..k] == [];
      RowIsKnown(s, c);
      KnownAfter(s, s, c);
    } else if k == 1 {
      TwoOps(s, ops[0], ops[1]);
      assert ops == [ops[0], ops[1]];
      KnownAfter(s, Apply(s, ops[0]), c);
    } else {
      assert ops[..k] == ops;
      NoticeIs(s, c);
      KnownAfter(s, Exec(s, ops), c);
    }
  }

  lemma RowIsKnown(s: Store, c: Checkpoint)
    requires NoticesKnown(s) && RowsOf(s.rows, NoticeOf(c)) != []
    ensures Original(NoticeOf(c), 0) in s.accepted
  {
  }

  lemma SpentMore(s: Store, sent: Store, key: Key, c: Checkpoint)
    requires key == Original(NoticeOf(c), 0) && sent.accepted.Keys == s.accepted.Keys + {key}
    requires forall k :: k in s.accepted && k.id.NoticeOf? ==> k == Original(k.id, 0)
    ensures Spent(sent) == Spent(s) + {c} && (key !in s.accepted ==> c !in Spent(s))
  {
    forall d: Checkpoint ensures d in Spent(sent) <==> d in Spent(s) + {c} {
      if d in Spent(sent) { var k :| k in sent.accepted && k.id.NoticeOf? && k.id.checkpoint == d; }
      if d in Spent(s) {
        var k :| k in s.accepted && k.id.NoticeOf? && k.id.checkpoint == d;
        assert k in sent.accepted;
      }
      assert key in sent.accepted;
    }
  }

  /** One dispatch, in either configuration, cut off anywhere or not at all. */
  datatype Try = Try(edits: bool, messages: seq<Message>, version: nat, budget: nat)

  function Tried(room: Room, t: Try): Room {
    AttemptRoom(t.edits, room, t.messages, t.version, t.budget)
  }

  /** The branch checkpoint a dispatch announces, if it drops an id and gets as far as one operation. */
  function Announces(room: Room, t: Try): set<Checkpoint> {
    if t.edits && Drops(room.branch, t.messages) && t.budget > 0 then {NextCheckpoint(room.branch, t.messages)} else {}
  }

  function AllTried(room: Room, tries: seq<Try>): Room
    decreases |tries|
  {
    if tries == [] then room else AllTried(Tried(room, tries[0]), tries[1..])
  }

  function Announced(room: Room, tries: seq<Try>): set<Checkpoint>
    decreases |tries|
  {
    if tries == [] then {} else Announces(room, tries[0]) + Announced(Tried(room, tries[0]), tries[1..])
  }

  lemma TryAnnounces(room: Room, t: Try)
    requires NoticesKnown(room.store)
    ensures NoticesKnown(Tried(room, t).store) && Spent(Tried(room, t).store) == Spent(room.store) + Announces(room, t)
  {
    hide NoticesKnown, Spent, AttemptIn, PlanFor;
    var s, parts := room.store, EventsOf(t.messages);
    EventsAre(t.messages);
    if t.edits && Drops(room.branch, t.messages) {
      NoticeThenParts(s, NextCheckpoint(room.branch, t.messages), parts, t.budget);
    } else {
      assert RoomEvents(t.edits, room.branch, t.messages) == parts by { assert [] + parts == parts; }
      PartsKeepNotices(t.edits, s, parts, t.budget);
      SameIsKnown(s, AttemptIn(t.edits, s, parts, t.budget));
    }
  }

  lemma NoticeThenParts(s: Store, c: Checkpoint, parts: seq<Event>, budget: nat)
    requires NoticesKnown(s) && OnlyParts(parts)
    ensures ValidEvents([Branch(c)] + parts)
    ensures var next := AttemptIn(true, s, [Branch(c)] + parts, budget);
      NoticesKnown(next) && Spent(next) == Spent(s) + (if budget > 0 then {c} else {})
  {
    hide NoticesKnown, Spent, Notices, SameNotices;
    var events := [Branch(c)] + parts;
    var ops := PlanFor(s, Branch(c)).ops;
    assert events[0] == Branch(c) && events[1..] == parts && ops[..|ops|] == ops;
    if budget < |ops| {
      if budget > 0 { AnnouncedOnce(s, c, budget); } else { assert ops[..0] == []; }
    } else {
      if budget > 0 || ops == [] { AnnouncedOnce(s, c, |ops|); }
      PartsKeepNotices(true, Exec(s, ops), parts, budget - |ops|);
      SameIsKnown(Exec(s, ops), AttemptIn(true, Exec(s, ops), parts, budget - |ops|));
    }
  }

  /**
   Branch notices over all lives of a room, whatever is cut off and given up and however the
   configuration changes: there is exactly one notice per branch checkpoint that was announced.
   */
  lemma {:induction false} NoticesAreAnnouncements(room: Room, tries: seq<Try>)
    requires NoticesKnown(room.store)
    ensures NoticesKnown(AllTried(room, tries).store)
    ensures Notices(AllTried(room, tries).store.timeline) == |Spent(room.store) + Announced(room, tries)|
    ensures Spent(AllTried(room, tries).store) == Spent(room.store) + Announced(room, tries)
    decreases |tries|
  {
    hide Tried, Announces;
    if tries == [] {
      assert Spent(room.store) + {} == Spent(room.store);
    } else {
      TryAnnounces(room, tries[0]);
      NoticesAreAnnouncements(Tried(room, tries[0]), tries[1..]);
      assert (Spent(room.store) + Announces(room, tries[0])) + Announced(Tried(room, tries[0]), tries[1..])
        == Spent(room.store) + Announced(room, tries);
    }
  }

  // ---------------------------------------------------------------- revisions retried to the end

  /** No notice is more recent than the branch checkpoint. */
  ghost predicate NoticesCovered(store: Store, branch: Option<Checkpoint>) {
    NoticesKnown(store) && forall c :: c in Spent(store) ==> branch.Some? && c.generation <= branch.value.generation
  }

  /**
   A dispatch in which no message is blocked announces a dropped branch with one fresh notice, and
   nothing else.
   */
  lemma DispatchNotices(room: Room, messages: seq<Message>, version: nat)
    requires Tied(room.store) && Snapshot(messages) && NoticesCovered(room.store, room.branch)
    ensures Succeeds(true, room, messages) <==> Unblocked(room.store, messages)
    ensures var after := DispatchRoom(true, room, messages, version);
      Unblocked(room.store, messages) ==>
        && NoticesCovered(after.store, after.branch) && Tied(after.store)
        && after.branch.Some? && Follows(after.branch.value, room.branch, messages)
        && Notices(after.store.timeline) == Notices(room.store.timeline) + (if Omits(IdsOf(room.branch), messages) then 1 else 0)
  {
    hide Tied, NoticesKnown, Notices, Spent, Omits, Drops;
    DropsExactly(room.branch, messages);
    var next := NextCheckpoint(room.branch, messages);
    var notice := if Drops(room.branch, messages) then Some(next) else None;
    var all := CostIn(true, room.store, RoomEvents(true, room.branch, messages)) + 2;
    DispatchSucceeds(room.store, notice, messages);
    if Unblocked(room.store, messages) {
      TiedIsWell(room.store);
      DispatchedRoom(true, room, messages, version);
      DispatchKeepsTied(room.store, notice, messages, all);
      TryAnnounces(room, Try(true, messages, version, all));
      CountsOne(room, messages, DispatchRoom(true, room, messages, version));
    }
  }

  lemma CountsOne(room: Room, messages: seq<Message>, after: Room)
    requires NoticesCovered(room.store, room.branch) && NoticesKnown(after.store)
    requires var next := NextCheckpoint(room.branch, messages);
      after.branch == Some(next) && Spent(after.store) == Spent(room.store) + if Drops(room.branch, messages) then {next} else {}
    ensures NoticesCovered(after.store, after.branch)
    ensures Notices(after.store.timeline) == Notices(room.store.timeline) + (if Drops(room.branch, messages) then 1 else 0)
  {
    hide Notices, Spent;
    if Drops(room.branch, messages) {
      assert NextCheckpoint(room.branch, messages) !in Spent(room.store);
    } else {
      assert Spent(room.store) + {} == Spent(room.store);
    }
  }

  /** A revision of the source and the dispatches of it that were cut off before the one that was not. */
  datatype Revised = Revised(messages: seq<Message>, version: nat, cuts: seq<nat>)

  function Retried(edits: bool, room: Room, r: Revised, cuts: seq<nat>): Room
    decreases |cuts|
  {
    if cuts == [] then DispatchRoom(edits, room, r.messages, r.version)
    else Retried(edits, AttemptRoom(edits, room, r.messages, r.version, cuts[0]), r, cuts[1..])
  }

  /** In either configuration, any number of cuts and then a full dispatch come to one full dispatch. */
  lemma {:induction false} RetriesResume(edits: bool, room: Room, r: Revised, cuts: seq<nat>)
    requires DistinctIds(r.messages) && Well(room.store)
    ensures Retried(edits, room, r, cuts) == DispatchRoom(edits, room, r.messages, r.version)
    decreases |cuts|
  {
    if cuts != [] {
      RoomResumes(edits, room, r.messages, r.version, cuts[0]);
      RetriesResume(edits, AttemptRoom(edits, room, r.messages, r.version, cuts[0]), r, cuts[1..]);
    }
  }

  /** No message of a revision is blocked by a row of the store it finds. */
  predicate EachUnblocked(room: Room, revisions: seq<Revised>)
    decreases |revisions|
  {
    revisions == [] ||
    var r := revisions[0];
    Snapshot(r.messages) && Unblocked(room.store, r.messages) && EachUnblocked(Retried(true, room, r, r.cuts), revisions[1..])
  }

  function Revise(room: Room, revisions: seq<Revised>): Room
    decreases |revisions|
  {
    if revisions == [] then room else Revise(Retried(true, room, revisions[0], revisions[0].cuts), revisions[1..])
  }

  /** How many of the revisions omit an id of the one before; the first, one of these. */
  function Omissions(ids: seq<nat>, revisions: seq<Revised>): nat
    decreases |revisions|
  {
    if revisions == [] then 0
    else (if Omits(ids, revisions[0].messages) then 1 else 0) + Omissions(Ids(revisions[0].messages), revisions[1..])
  }

  /**
   Where every revision is retried to the end and no row blocks it: however often each dispatch is cut
   off, the room gains exactly one notice per revision that omits an id of the revision before it,
   returns included.
   */
  lemma {:induction false} NoticesAreDrops(room: Room, revisions: seq<Revised>)
    requires Tied(room.store) && NoticesCovered(room.store, room.branch) && EachUnblocked(room, revisions)
    ensures Notices(Revise(room, revisions).store.timeline) == Notices(room.store.timeline) + Omissions(IdsOf(room.branch), revisions)
    decreases |revisions|
  {
    hide Tied, DispatchRoom, NoticesCovered, Notices, Omits;
    if revisions != [] {
      var r := revisions[0];
      TiedIsWell(room.store);
      DispatchNotices(room, r.messages, r.version);
      RetriesResume(true, room, r, r.cuts);
      assert IdsOf(DispatchRoom(true, room, r.messages, r.version).branch) == Ids(r.messages);
      NoticesAreDrops(Retried(true, room, r, r.cuts), revisions[1..]);
    }
  }

  predicate Grows(revisions: seq<Revised>) {
    forall k :: 0 < k < |revisions| ==> Ids(revisions[k - 1].messages) <= Ids(revisions[k].messages)
  }

  lemma AppendingOmitsNothing(ids: seq<nat>, messages: seq<Message>)
    requires ids <= Ids(messages)
    ensures !Omits(ids, messages)
  {
    assert forall k :: 0 <= k < |ids| ==> ids[k] == Ids(messages)[k];
  }

  /** Revisions that only append announce nothing. */
  lemma {:induction false} AppendsDropNothing(ids: seq<nat>, revisions: seq<Revised>)
    requires Grows(revisions) && (revisions != [] ==> !Omits(ids, revisions[0].messages))
    ensures Omissions(ids, revisions) == 0
    decreases |revisions|
  {
    if |revisions| > 1 {
      var before := Ids(revisions[0].messages);
      AppendingOmitsNothing(before, revisions[1].messages);
      assert forall k :: 0 < k < |revisions[1..]| ==> revisions[1..][k - 1] == revisions[k] && revisions[1..][k] == revisions[k + 1];
      AppendsDropNothing(before, revisions[1..]);
    }
  }

  /** An id left out anywhere, first, last or between: a dispatch that no row blocks gains a notice. */
  lemma OmissionIsAnnounced(room: Room, messages: seq<Message>, version: nat, k: nat)
    requires Tied(room.store) && Snapshot(messages) && NoticesCovered(room.store, room.branch) && Unblocked(room.store, messages)
    requires room.branch.Some? && k < |room.branch.value.ids|
    requires forall j :: 0 <= j < |messages| ==> messages[j].id != room.branch.value.ids[k]
    ensures var after := DispatchRoom(true, room, messages, version);
      && Succeeds(true, room, messages)
      && Notices(after.store.timeline) == Notices(room.store.timeline) + 1
      && after.branch.Some? && after.branch.value.generation == room.branch.value.generation + 1
  {
    DispatchNotices(room, messages, version);
    assert Omits(IdsOf(room.branch), messages);
  }
}
