/**
 The order in which a dispatch sends (pkg/connector/connector.go, dispatch): whatever it adds to the room,
 cut off anywhere or not, is in the order of the source, each part with its own content, behind the
 notice of a branch change.
 */
module MirrorOrder {
  import opened Mirror
  import opened MirrorResume
  import opened MirrorEvents
  import opened MirrorOff
  import opened MirrorRoom

  /** The transaction with which an event is first sent, and what it then says. */
  function FirstKey(e: Event): Key {
    match e
    case Part(m, index) => Original(Of(m.id), index)
    case Branch(checkpoint) => Original(NoticeOf(checkpoint), 0)
  }

  function FirstPost(e: Event): Post
    requires ValidEvent(e)
  {
    match e
    case Part(m, index) => New(m.parts[index])
    case Branch(_) => Notice
  }

  // ---------------------------------------------------------------- what one event adds

  /** Among these operations only the event's own is an original, and it says what the event does. */
  predicate AddsOnly(ops: seq<Op>, e: Event)
    requires ValidEvent(e)
  {
    forall op :: op in ops && op.Send? && op.key.Original? ==> op.key == FirstKey(e) && op.post == FirstPost(e)
  }

  predicate NoOriginals(ops: seq<Op>) {
    forall op :: op in ops && op.Send? ==> !op.key.Original?
  }

  lemma {:induction false} EditsAddNothing(m: Message, changes: seq<Change>)
    ensures NoOriginals(Edits(m, changes)) && NoOriginals(Saves(m, changes))
  {
    if changes != [] { EditsAddNothing(m, changes[1..]); }
  }

  lemma ReconcileAdds(rows: seq<Row>, m: Message, index: nat)
    requires index < |m.parts|
    ensures AddsOnly(Reconcile(rows, m, index).ops, Part(m, index))
  {
    hide Edits, Saves, Changes, Marked, Scanned, StaleFor, Outdated, Tombstones, Mine;
    var stale := StaleFor(rows, m, index);
    EditsAddNothing(m, Tombstones(Mine(stale)));
    EditsAddNothing(m, Tombstones(stale));
    EditsAddNothing(m, Changes(rows, m, index));
    EditsAddNothing(m, Marked(rows, m, index));
  }

  lemma OffAdds(s: Store, m: Message, index: nat)
    requires index < |m.parts|
    ensures AddsOnly(PlanOff(s, m, index).ops, Part(m, index))
  {
  }

  lemma EventAdds(edits: bool, s: Store, e: Event)
    requires ValidEventIn(edits, e)
    ensures AddsOnly(PlanIn(edits, s, e).ops, e)
  {
    hide AddsOnly, Reconcile, PlanOff;
    match e
    case Part(m, index) => if edits { ReconcileAdds(RowsOf(s.rows, Of(m.id)), m, index); } else { OffAdds(s, m, index); }
    case Branch(checkpoint) => AnnounceAdds(RowsOf(s.rows, NoticeOf(checkpoint)), checkpoint);
  }

  lemma AnnounceAdds(rows: seq<Row>, checkpoint: Checkpoint)
    ensures AddsOnly(Announce(rows, checkpoint).ops, Branch(checkpoint))
  {
  }

  /** What was accepted stays so, what is new is accepted at the end, and only these originals are new. */
  ghost predicate Added(s: Store, next: Store, e: Event)
    requires ValidEvent(e)
  {
    && |s.timeline| <= |next.timeline| && Served(next)
    && (forall k :: k in s.accepted ==> k in next.accepted && next.accepted[k] == s.accepted[k])
    && (forall p :: 0 <= p < |s.timeline| ==> next.timeline[p] == s.timeline[p])
    && (forall k :: k in next.accepted && k !in s.accepted ==> next.accepted[k] >= |s.timeline|)
    && (forall k :: k in next.accepted && k !in s.accepted && k.Original? ==>
          k == FirstKey(e) && next.timeline[next.accepted[k]] == Sent(Some(k), FirstPost(e)))
  }

  lemma {:induction false} OpsAdd(s: Store, ops: seq<Op>, e: Event)
    requires ValidEvent(e) && Served(s) && AddsOnly(ops, e)
    ensures Added(s, Exec(s, ops), e)
    decreases |ops|
  {
    if ops != [] {
      var next := Apply(s, ops[0]);
      if ops[0].Send? { SendKeepsServed(s, ops[0].key, ops[0].post); }
      assert Added(s, next, e) by { assert ops[0] in ops; }
      OpsAdd(next, ops[1..], e);
      AddedOn(s, next, Exec(s, ops), e);
    }
  }

  lemma AddedOn(s: Store, next: Store, after: Store, e: Event)
    requires ValidEvent(e) && Added(s, next, e) && Added(next, after, e)
    ensures Added(s, after, e)
  {
  }

  lemma EventCutAdds(edits: bool, s: Store, e: Event, k: nat)
    requires ValidEventIn(edits, e) && Served(s) && k <= |PlanIn(edits, s, e).ops|
    ensures Added(s, Exec(s, PlanIn(edits, s, e).ops[..k]), e)
  {
    hide PlanIn, Added;
    EventAdds(edits, s, e);
    OpsAdd(s, PlanIn(edits, s, e).ops[..k], e);
  }

  // ---------------------------------------------------------------- what a dispatch adds

  /** One event of a dispatch, and then the rest of it, if it comes to that. */
  function AfterFirst(edits: bool, s: Store, events: seq<Event>, budget: nat): Store
    requires ValidIn(edits, events) && events != []
  {
    assert events[0] in events;
    var ops := PlanIn(edits, s, events[0]).ops;
    Exec(s, if budget < |ops| then ops[..budget] else ops)
  }

  lemma AttemptOnce(edits: bool, s: Store, events: seq<Event>, budget: nat) returns (more: bool, left: nat)
    requires ValidIn(edits, events) && events != [] && Served(s)
    ensures ValidIn(edits, events[1..]) && Added(s, AfterFirst(edits, s, events, budget), events[0])
    ensures AttemptIn(edits, s, events, budget) ==
      if more then AttemptIn(edits, AfterFirst(edits, s, events, budget), events[1..], left) else AfterFirst(edits, s, events, budget)
  {
    hide PlanFor, PlanOff, Added;
    assert events[0] in events;
    var plan := PlanIn(edits, s, events[0]);
    assert plan.ops[..|plan.ops|] == plan.ops;
    EventCutAdds(edits, s, events[0], if budget < |plan.ops| then budget else |plan.ops|);
    more := budget >= |plan.ops| && plan.ok;
    left := if more then budget - |plan.ops| else 0;
  }

  /** What is accepted stays accepted, where it is, and no other event's original is sent. */
  lemma {:induction false} AttemptAdds(edits: bool, s: Store, events: seq<Event>, budget: nat, key: Key)
    requires ValidIn(edits, events) && Served(s) && key.Original?
    ensures var t := AttemptIn(edits, s, events, budget);
      && Served(t) && |s.timeline| <= |t.timeline|
      && (forall p :: 0 <= p < |s.timeline| ==> t.timeline[p] == s.timeline[p])
      && (key in s.accepted ==> key in t.accepted && t.accepted[key] == s.accepted[key])
      && (key !in s.accepted && key in t.accepted ==>
            t.accepted[key] >= |s.timeline|
            && exists k :: 0 <= k < |events| && FirstKey(events[k]) == key && t.timeline[t.accepted[key]] == Sent(Some(key), FirstPost(events[k])))
    decreases |events|
  {
    hide AttemptIn, AfterFirst;
    if events == [] {
      AttemptNothing(edits, s, budget);
    } else {
      var more, left := AttemptOnce(edits, s, events, budget);
      var next := AfterFirst(edits, s, events, budget);
      if more { AttemptAdds(edits, next, events[1..], left, key); }
      var t := AttemptIn(edits, s, events, budget);
      if key !in s.accepted && key in t.accepted {
        if key in next.accepted {
          assert FirstKey(events[0]) == key && t.timeline[t.accepted[key]] == Sent(Some(key), FirstPost(events[0]));
        } else {
          var k :| 0 <= k < |events[1..]| && FirstKey(events[1..][k]) == key
                   && t.timeline[t.accepted[key]] == Sent(Some(key), FirstPost(events[1..][k]));
          assert events[k + 1] == events[1..][k];
        }
      }
    }
  }

  lemma AttemptNothing(edits: bool, s: Store, budget: nat)
    ensures ValidIn(edits, []) && AttemptIn(edits, s, [], budget) == s
  {
  }

  predicate DistinctKeys(events: seq<Event>) {
    forall i, j :: 0 <= i < j < |events| ==> FirstKey(events[i]) != FirstKey(events[j])
  }

  /** Of two events whose originals are new, the earlier is sent before the later. */
  lemma {:induction false} OriginalsInOrder(edits: bool, s: Store, events: seq<Event>, budget: nat, i: nat, j: nat)
    requires ValidIn(edits, events) && Served(s) && DistinctKeys(events) && i < j < |events|
    requires FirstKey(events[i]) !in s.accepted && FirstKey(events[j]) !in s.accepted
    requires var t := AttemptIn(edits, s, events, budget); FirstKey(events[i]) in t.accepted && FirstKey(events[j]) in t.accepted
    ensures var t := AttemptIn(edits, s, events, budget); t.accepted[FirstKey(events[i])] < t.accepted[FirstKey(events[j])]
    decreases |events|
  {
    hide AttemptIn, AfterFirst;
    var more, left := AttemptOnce(edits, s, events, budget);
    var next := AfterFirst(edits, s, events, budget);
    var rest := events[1..];
    assert forall k :: 0 < k < |events| ==> rest[k - 1] == events[k];
    assert FirstKey(events[j]) !in next.accepted;
    if i > 0 {
      OriginalsInOrder(edits, next, rest, left, i - 1, j - 1);
    } else {
      AttemptAdds(edits, next, rest, left, FirstKey(events[0]));
      AttemptAdds(edits, next, rest, left, FirstKey(events[j]));
    }
  }

  // ---------------------------------------------------------------- the events of a conversation

  /** How many parts the first messages have. */
  function PartsBefore(messages: seq<Message>, n: nat): nat
    requires n <= |messages|
  {
    if n == 0 then 0 else |messages[0].parts| + PartsBefore(messages[1..], n - 1)
  }

  lemma {:induction false} PartAt(messages: seq<Message>, n: nat, i: nat)
    requires n < |messages| && i < |messages[n].parts|
    ensures var k := PartsBefore(messages, n) + i; k < |EventsOf(messages)| && EventsOf(messages)[k] == Part(messages[n], i)
  {
    PartsAre(messages[0], 0);
    if n > 0 { PartAt(messages[1..], n - 1, i); }
  }

  lemma {:induction false} LaterMessages(messages: seq<Message>, a: nat, b: nat)
    requires a < b <= |messages|
    ensures PartsBefore(messages, a) + |messages[a].parts| <= PartsBefore(messages, b)
  {
    if a > 0 { LaterMessages(messages[1..], a - 1, b - 1); }
  }

  lemma DispatchedKeysDiffer(notice: Option<Checkpoint>, messages: seq<Message>)
    requires DistinctIds(messages)
    ensures DistinctKeys(Dispatched(notice, messages))
  {
    DispatchedCoherent(notice, messages);
    var events := Dispatched(notice, messages);
    forall i, j | 0 <= i < j < |events| ensures FirstKey(events[i]) != FirstKey(events[j]) {
      assert Compatible(events[i], events[j]);
    }
  }

  /** What a dispatch newly sends for this event, as the homeserver has it. */
  predicate NewlySent(before: Store, after: Store, key: Key) {
    key !in before.accepted && key in after.accepted
  }

  /** The branch notice a dispatch begins with, if any. */
  function NoticeFor(edits: bool, branch: Option<Checkpoint>, messages: seq<Message>): Option<Checkpoint> {
    if edits && Drops(branch, messages) then Some(NextCheckpoint(branch, messages)) else None
  }

  /**
   Whatever a dispatch adds, in either configuration and cut off anywhere: of two parts that are newly sent, the
   one of the earlier message, or the earlier part of one message, comes first in the room, and
   each says its own content.
   */
  lemma PartsInOrder(edits: bool, room: Room, messages: seq<Message>, version: nat, budget: nat, a: nat, i: nat, b: nat, j: nat)
    requires DistinctIds(messages) && Served(room.store)
    requires a < |messages| && i < |messages[a].parts| && b < |messages| && j < |messages[b].parts|
    requires a < b || (a == b && i < j)
    requires var after := AttemptRoom(edits, room, messages, version, budget).store;
      NewlySent(room.store, after, Original(Of(messages[a].id), i)) && NewlySent(room.store, after, Original(Of(messages[b].id), j))
    ensures var after := AttemptRoom(edits, room, messages, version, budget).store;
      && var first := after.accepted[Original(Of(messages[a].id), i)]; var second := after.accepted[Original(Of(messages[b].id), j)];
      && |room.store.timeline| <= first < second < |after.timeline|
      && after.timeline[first] == Sent(Some(Original(Of(messages[a].id), i)), New(messages[a].parts[i]))
      && after.timeline[second] == Sent(Some(Original(Of(messages[b].id), j)), New(messages[b].parts[j]))
  {
    hide AttemptIn, DeliverIn, CostIn;
    var notice := NoticeFor(edits, room.branch, messages);
    var events := RoomEvents(edits, room.branch, messages);
    var first := if notice.Some? then 1 else 0;
    PartAt(messages, a, i);
    PartAt(messages, b, j);
    if a < b { LaterMessages(messages, a, b); }
    var k, l := first + PartsBefore(messages, a) + i, first + PartsBefore(messages, b) + j;
    assert events[k] == Part(messages[a], i) && events[l] == Part(messages[b], j);
    DispatchedKeysDiffer(notice, messages);
    OriginalsInOrder(edits, room.store, events, budget, k, l);
    SaysItsOwn(edits, room.store, events, budget, k);
    SaysItsOwn(edits, room.store, events, budget, l);
  }

  lemma SaysItsOwn(edits: bool, s: Store, events: seq<Event>, budget: nat, k: nat)
    requires ValidIn(edits, events) && Served(s) && DistinctKeys(events) && k < |events|
    requires NewlySent(s, AttemptIn(edits, s, events, budget), FirstKey(events[k]))
    ensures var t := AttemptIn(edits, s, events, budget); var p := t.accepted[FirstKey(events[k])];
      |s.timeline| <= p < |t.timeline| && t.timeline[p] == Sent(Some(FirstKey(events[k])), FirstPost(events[k]))
  {
    hide AttemptIn;
    AttemptAdds(edits, s, events, budget, FirstKey(events[k]));
  }

  /** And the notice of a branch change comes before them all. */
  lemma NoticeComesFirst(room: Room, messages: seq<Message>, version: nat, budget: nat, b: nat, j: nat)
    requires DistinctIds(messages) && Served(room.store) && Omits(IdsOf(room.branch), messages)
    requires b < |messages| && j < |messages[b].parts|
    requires var after := AttemptRoom(true, room, messages, version, budget).store;
      && NewlySent(room.store, after, Original(NoticeOf(NextCheckpoint(room.branch, messages)), 0))
      && NewlySent(room.store, after, Original(Of(messages[b].id), j))
    ensures var after := AttemptRoom(true, room, messages, version, budget).store;
      && var first := after.accepted[Original(NoticeOf(NextCheckpoint(room.branch, messages)), 0)];
      && first < after.accepted[Original(Of(messages[b].id), j)]
      && first < |after.timeline| && after.timeline[first].post == Notice
  {
    hide AttemptIn, DeliverIn, CostIn;
    DropsExactly(room.branch, messages);
    var notice := NoticeFor(true, room.branch, messages);
    var events := RoomEvents(true, room.branch, messages);
    PartAt(messages, b, j);
    var l := 1 + PartsBefore(messages, b) + j;
    assert events[0] == Branch(notice.value) && events[l] == Part(messages[b], j);
    DispatchedKeysDiffer(notice, messages);
    OriginalsInOrder(true, room.store, events, budget, 0, l);
    SaysItsOwn(true, room.store, events, budget, 0);
  }
}
