/**
 A room's dispatch with its durable checkpoints (pkg/connector/connector.go dispatch and
 dispatchConversation, reconcile.go branchState): the branch checkpoint, the delivered
 fingerprint, and what skipping a delivered version and announcing a branch change come to. All of
 it is for either value of sync_edits; the branch is watched and saved only with edits on.

 A source version stands for its fingerprint: versions do not recur, and a version determines
 the messages. Text only; no outbox is pending.
 */
module MirrorRoom {
  import opened Mirror
  import opened MirrorResume
  import opened MirrorEvents
  import opened MirrorOff

  datatype Room = Room(store: Store, branch: Option<Checkpoint>, delivered: Option<nat>)

  function Ids(messages: seq<Message>): (ids: seq<nat>)
    ensures |ids| == |messages| && forall k :: 0 <= k < |messages| ==> ids[k] == messages[k].id
  {
    seq(|messages|, k requires 0 <= k < |messages| => messages[k].id)
  }

  /** An id of the checkpoint is no longer in the conversation. */
  predicate Drops(previous: Option<Checkpoint>, messages: seq<Message>) {
    previous.Some? && exists id :: id in previous.value.ids && id !in Ids(messages)
  }

  /** No message has this id. */
  predicate Absent(id: nat, messages: seq<Message>) {
    forall j :: 0 <= j < |messages| ==> messages[j].id != id
  }

  /** One of these ids, wherever it stands, is the id of no message. */
  predicate Omits(ids: seq<nat>, messages: seq<Message>) {
    exists k :: 0 <= k < |ids| && Absent(ids[k], messages)
  }

  function GenerationOf(branch: Option<Checkpoint>): nat {
    if branch.Some? then branch.value.generation else 0
  }

  function IdsOf(branch: Option<Checkpoint>): seq<nat> {
    if branch.Some? then branch.value.ids else []
  }

  /** The checkpoint lists the messages' ids in order, and its generation rises exactly when one is omitted. */
  predicate Follows(next: Checkpoint, previous: Option<Checkpoint>, messages: seq<Message>) {
    && |next.ids| == |messages| && (forall k :: 0 <= k < |messages| ==> next.ids[k] == messages[k].id)
    && next.generation == GenerationOf(previous) + (if Omits(IdsOf(previous), messages) then 1 else 0)
  }

  lemma DropsExactly(previous: Option<Checkpoint>, messages: seq<Message>)
    ensures Drops(previous, messages) <==> Omits(IdsOf(previous), messages)
    ensures Follows(NextCheckpoint(previous, messages), previous, messages)
  {
    if Omits(IdsOf(previous), messages) {
      var k :| 0 <= k < |IdsOf(previous)| && Absent(IdsOf(previous)[k], messages);
      assert IdsOf(previous)[k] in previous.value.ids && IdsOf(previous)[k] !in Ids(messages);
    }
    if Drops(previous, messages) {
      var id :| id in previous.value.ids && id !in Ids(messages);
      var k :| 0 <= k < |previous.value.ids| && previous.value.ids[k] == id;
      assert forall j :: 0 <= j < |messages| ==> Ids(messages)[j] == messages[j].id;
      assert Absent(IdsOf(previous)[k], messages);
    }
  }

  function NextCheckpoint(previous: Option<Checkpoint>, messages: seq<Message>): Checkpoint {
    var generation := if previous.Some? then previous.value.generation else 0;
    Checkpoint(Ids(messages), if Drops(previous, messages) then generation + 1 else generation)
  }

  /** How many durable operations a full dispatch of the events performs. */
  function Cost(s: Store, events: seq<Event>): nat
    requires ValidEvents(events)
    decreases |events|
  {
    if events == [] then 0
    else
      var plan := PlanFor(s, events[0]);
      |plan.ops| + if plan.ok then Cost(Exec(s, plan.ops), events[1..]) else 0
  }

  // ---------------------------------------------------------------- either configuration

  predicate ValidIn(edits: bool, events: seq<Event>) {
    if edits then ValidEvents(events) else OnlyParts(events)
  }

  predicate ValidEventIn(edits: bool, e: Event) {
    ValidEvent(e) && (!edits ==> e.Part?)
  }

  function PlanIn(edits: bool, s: Store, e: Event): Plan
    requires ValidEventIn(edits, e)
  {
    if edits then PlanFor(s, e) else PlanOff(s, e.message, e.index)
  }

  function DeliverIn(edits: bool, s: Store, events: seq<Event>): Outcome
    requires ValidIn(edits, events)
  {
    if edits then Deliver(s, events) else DeliverOff(s, events)
  }

  function AttemptIn(edits: bool, s: Store, events: seq<Event>, budget: nat): Store
    requires ValidIn(edits, events)
  {
    if edits then Attempt(s, events, budget) else AttemptOff(s, events, budget)
  }

  function CostIn(edits: bool, s: Store, events: seq<Event>): nat
    requires ValidIn(edits, events)
  {
    if edits then Cost(s, events) else CostOff(s, events)
  }

  predicate DoneIn(edits: bool, s: Store, events: seq<Event>)
    requires ValidIn(edits, events)
  {
    if edits then AllDone(s, events) else AllDoneOff(s, events)
  }

  lemma {:induction false} EnoughIsAll(s: Store, events: seq<Event>, budget: nat)
    requires ValidEvents(events) && budget >= Cost(s, events)
    ensures Attempt(s, events, budget) == Deliver(s, events).store
    decreases |events|
  {
    hide PlanFor;
    if events != [] {
      var plan := PlanFor(s, events[0]);
      if plan.ok { EnoughIsAll(Exec(s, plan.ops), events[1..], budget - |plan.ops|); }
    }
  }

  lemma EnoughIsAllIn(edits: bool, s: Store, events: seq<Event>, budget: nat)
    requires ValidIn(edits, events) && budget >= CostIn(edits, s, events)
    ensures AttemptIn(edits, s, events, budget) == DeliverIn(edits, s, events).store
  {
    if edits { EnoughIsAll(s, events, budget); } else { EnoughIsAllOff(s, events, budget); }
  }

  lemma {:induction false} DeliverIsDone(s: Store, past: seq<Event>, events: seq<Event>)
    requires ValidEvents(past) && ValidEvents(events) && Coherent(past + events)
    requires Well(s) && AllDone(s, past) && Deliver(s, events).ok
    ensures ValidEvents(past + events) && AllDone(Deliver(s, events).store, past + events)
    decreases |events|
  {
    if events == [] {
      assert past + events == past;
    } else {
      var ops := PlanFor(s, events[0]).ops;
      EventMovesOn(s, past, events);
      DeliverIsDone(Exec(s, ops), past + [events[0]], events[1..]);
    }
  }

  lemma DeliverIsDoneIn(edits: bool, s: Store, events: seq<Event>)
    requires ValidIn(edits, events) && Coherent(events) && Well(s) && DeliverIn(edits, s, events).ok
    ensures DoneIn(edits, DeliverIn(edits, s, events).store, events)
  {
    assert [] + events == events;
    if edits { DeliverIsDone(s, [], events); } else { DeliverIsDoneOff(s, [], events); }
  }

  lemma DoneDeliversIn(edits: bool, s: Store, events: seq<Event>)
    requires ValidIn(edits, events) && DoneIn(edits, s, events)
    ensures DeliverIn(edits, s, events) == Outcome(s, true)
  {
    assert events + [] == events;
    if edits { DoneDelivers(s, events, []); } else { DoneDeliversOff(s, events, []); }
  }

  /** Resume equivalence for one cut, in either configuration. */
  lemma AttemptResumesIn(edits: bool, s: Store, events: seq<Event>, budget: nat)
    requires ValidIn(edits, events) && Coherent(events) && Well(s)
    ensures Well(AttemptIn(edits, s, events, budget))
    ensures DeliverIn(edits, AttemptIn(edits, s, events, budget), events) == DeliverIn(edits, s, events)
  {
    assert [] + events == events;
    if edits { AttemptResumes(s, [], events, budget); } else { AttemptResumesOff(s, [], events, budget); }
  }

  // ---------------------------------------------------------------- a dispatch of a room

  function RoomEvents(edits: bool, branch: Option<Checkpoint>, messages: seq<Message>): (events: seq<Event>)
    ensures ValidEvents(events) && ValidIn(edits, events)
  {
    EventsAre(messages);
    Dispatched(if edits && Drops(branch, messages) then Some(NextCheckpoint(branch, messages)) else None, messages)
  }

  /**
   A dispatch cut off after budget durable operations; the last ones are the branch checkpoint, with
   edits on, and the delivered fingerprint, written only once every event has succeeded.
   */
  function AttemptRoom(edits: bool, room: Room, messages: seq<Message>, version: nat, budget: nat): Room {
    var events := RoomEvents(edits, room.branch, messages);
    var cost := CostIn(edits, room.store, events);
    var done := DeliverIn(edits, room.store, events).ok;
    var last := if edits then cost + 1 else cost;
    Room(
      AttemptIn(edits, room.store, events, budget),
      if edits && done && budget > cost then Some(NextCheckpoint(room.branch, messages)) else room.branch,
      if done && budget > last then Some(version) else room.delivered)
  }

  predicate Succeeds(edits: bool, room: Room, messages: seq<Message>) {
    DeliverIn(edits, room.store, RoomEvents(edits, room.branch, messages)).ok
  }

  /** A dispatch that is not cut off. */
  function DispatchRoom(edits: bool, room: Room, messages: seq<Message>, version: nat): Room {
    AttemptRoom(edits, room, messages, version, CostIn(edits, room.store, RoomEvents(edits, room.branch, messages)) + 2)
  }

  /** Nothing is left to do for a version in the room. */
  predicate InPlace(edits: bool, room: Room, messages: seq<Message>) {
    && EventsDone(edits, room.store, messages)
    && (edits ==> !Drops(room.branch, messages) && room.branch == Some(NextCheckpoint(room.branch, messages)))
  }

  predicate EventsDone(edits: bool, s: Store, messages: seq<Message>) {
    EventsAre(messages);
    DoneIn(edits, s, EventsOf(messages))
  }

  // ---------------------------------------------------------------- resuming

  lemma RoomEventsCoherent(edits: bool, branch: Option<Checkpoint>, messages: seq<Message>)
    requires DistinctIds(messages)
    ensures Coherent(RoomEvents(edits, branch, messages))
    ensures forall e :: e in EventsOf(messages) ==> e in RoomEvents(edits, branch, messages)
  {
    DispatchedCoherent(if edits && Drops(branch, messages) then Some(NextCheckpoint(branch, messages)) else None, messages);
  }

  lemma SameIdsSameBranch(branch: Option<Checkpoint>, messages: seq<Message>)
    ensures var saved := Some(NextCheckpoint(branch, messages));
      !Drops(saved, messages) && Some(NextCheckpoint(saved, messages)) == saved
  {
  }

  /** Once a version is in place, dispatching it does nothing to the room. */
  lemma DoneRoom(edits: bool, room: Room, messages: seq<Message>, version: nat)
    requires InPlace(edits, room, messages)
    ensures Succeeds(edits, room, messages)
    ensures DispatchRoom(edits, room, messages, version) == room.(delivered := Some(version))
  {
    hide DoneIn, DeliverIn, AttemptIn, CostIn;
    var events := EventsOf(messages);
    EventsAre(messages);
    assert RoomEvents(edits, room.branch, messages) == events by { assert [] + events == events; }
    DoneDeliversIn(edits, room.store, events);
    EnoughIsAllIn(edits, room.store, events, CostIn(edits, room.store, events) + 2);
  }

  /** After a dispatch that succeeds, the version is in place and its checkpoints are the ones saved. */
  lemma DispatchedRoom(edits: bool, room: Room, messages: seq<Message>, version: nat)
    requires DistinctIds(messages) && Well(room.store) && Succeeds(edits, room, messages)
    ensures var after := DispatchRoom(edits, room, messages, version);
      && after.store == DeliverIn(edits, room.store, RoomEvents(edits, room.branch, messages)).store
      && after.branch == (if edits then Some(NextCheckpoint(room.branch, messages)) else room.branch)
      && after.delivered == Some(version)
      && Well(after.store) && InPlace(edits, after, messages)
  {
    hide DeliverIn, AttemptIn, CostIn;
    var events := RoomEvents(edits, room.branch, messages);
    RoomEventsCoherent(edits, room.branch, messages);
    EnoughIsAllIn(edits, room.store, events, CostIn(edits, room.store, events) + 2);
    DeliverIsDoneIn(edits, room.store, events);
    AttemptResumesIn(edits, room.store, events, CostIn(edits, room.store, events) + 2);
    SameIdsSameBranch(room.branch, messages);
    EventsAre(messages);
  }

  /** A cut before the checkpoints, or a failure: the next dispatch makes the same room of it. */
  lemma EarlyCutResumes(edits: bool, room: Room, messages: seq<Message>, version: nat, budget: nat)
    requires DistinctIds(messages) && Well(room.store)
    requires Succeeds(edits, room, messages) ==> budget <= CostIn(edits, room.store, RoomEvents(edits, room.branch, messages))
    ensures var cut := AttemptRoom(edits, room, messages, version, budget);
      && cut.branch == room.branch && cut.delivered == room.delivered && Well(cut.store)
      && (Succeeds(edits, cut, messages) <==> Succeeds(edits, room, messages))
      && DispatchRoom(edits, cut, messages, version) == DispatchRoom(edits, room, messages, version)
  {
    hide DeliverIn, AttemptIn, CostIn;
    var events := RoomEvents(edits, room.branch, messages);
    RoomEventsCoherent(edits, room.branch, messages);
    AttemptResumesIn(edits, room.store, events, budget);
    var cut := AttemptIn(edits, room.store, events, budget);
    EnoughIsAllIn(edits, room.store, events, CostIn(edits, room.store, events) + 2);
    EnoughIsAllIn(edits, cut, events, CostIn(edits, cut, events) + 2);
  }

  /** A cut once every event has succeeded: all but the last writes are already in place. */
  lemma LateCutResumes(edits: bool, room: Room, messages: seq<Message>, version: nat, budget: nat)
    requires DistinctIds(messages) && Well(room.store) && Succeeds(edits, room, messages)
    requires budget > CostIn(edits, room.store, RoomEvents(edits, room.branch, messages))
    ensures var cut := AttemptRoom(edits, room, messages, version, budget); var after := DispatchRoom(edits, room, messages, version);
      && cut == after.(delivered := cut.delivered)
      && Well(cut.store) && Succeeds(edits, cut, messages) && DispatchRoom(edits, cut, messages, version) == after
  {
    hide DeliverIn, AttemptIn, CostIn, EventsDone;
    var events := RoomEvents(edits, room.branch, messages);
    EnoughIsAllIn(edits, room.store, events, budget);
    DispatchedRoom(edits, room, messages, version);
    DoneRoom(edits, AttemptRoom(edits, room, messages, version, budget), messages, version);
  }

  /**
   Resume equivalence of the whole room, in either configuration: a dispatch cut off anywhere, even
   between its checkpoint writes, and then repeated ends exactly where one uninterrupted dispatch
   ends, in success or in failure.
   */
  lemma RoomResumes(edits: bool, room: Room, messages: seq<Message>, version: nat, budget: nat)
    requires DistinctIds(messages) && Well(room.store)
    ensures var cut := AttemptRoom(edits, room, messages, version, budget);
      && Well(cut.store) && (Succeeds(edits, cut, messages) <==> Succeeds(edits, room, messages))
      && DispatchRoom(edits, cut, messages, version) == DispatchRoom(edits, room, messages, version)
  {
    if !Succeeds(edits, room, messages) || budget <= CostIn(edits, room.store, RoomEvents(edits, room.branch, messages)) {
      EarlyCutResumes(edits, room, messages, version, budget);
    } else {
      LateCutResumes(edits, room, messages, version, budget);
    }
  }
}
