/**
 Dispatches with edits off, exactly: when one succeeds, and what it then shows, from any store a
 room's life can lead to.
 */
module MirrorOffExact {
  import opened Mirror
  import opened MirrorResume
  import opened MirrorEvents
  import opened MirrorExact
  import opened MirrorPlain
  import opened MirrorOff

  // ---------------------------------------------------------------- what holds whatever happens

  /** A part that is shown already has its row, which is presented anew. */
  lemma ShownHasRow(s: Store, m: Message, index: nat)
    requires index < |m.parts| && Tied(s) && Judge(RowsOf(s.rows, Of(m.id)), m, index, None).Shown?
    ensures var rows := RowsOf(s.rows, Of(m.id)); var target := Find(rows, index);
      && target.Some? && target.value in rows && target.value.part == index
      && Fits(target.value, m) && !HoldsWhole(target.value, m) && HoldsOwn(target.value) && Owned(s, m.id, target.value)
      && Judge(rows, m, index, None) == Present(target.value, m, m.parts[index])
  {
    var rows := RowsOf(s.rows, Of(m.id));
    TiedRows(s, m.id);
    JudgeShows(rows, m, index, None);
    FindIs(rows, index);
    var own := Find(rows, index).value;
    forall r | r in rows && r.part == index ensures r == own { FindMember(rows, r); }
    JudgeByTarget(rows, m, index, None, own);
  }

  lemma PresentedHoldsPart(row: Row, m: Message, index: nat)
    requires index < |m.parts| && row.part == index && Fits(row, m) && !HoldsWhole(row, m) && HoldsOwn(row)
    requires var verdict := Present(row, m, m.parts[index]); verdict.Shown? && verdict.meta != row.meta
    ensures HoldsPart(Present(row, m, m.parts[index]).meta)
  {
  }

  lemma ShownIsPlain(s: Store, m: Message, index: nat)
    requires index < |m.parts| && Tied(s) && Judge(RowsOf(s.rows, Of(m.id)), m, index, None).Shown?
    ensures AllPlain(m, PlanOff(s, m, index).ops)
  {
    var rows := RowsOf(s.rows, Of(m.id));
    ShownHasRow(s, m, index);
    TiedRows(s, m.id);
    var meta := Judge(rows, m, index, None).meta;
    var target := Find(rows, index).value;
    var k :| 0 <= k < |rows| && rows[k] == target;
    SetAt(rows, k, meta);
    if meta != target.meta { PresentedHoldsPart(target, m, index); }
  }

  lemma GapMayJoin(s: Store, m: Message, index: nat)
    requires index < |m.parts| && Tied(s) && Judge(RowsOf(s.rows, Of(m.id)), m, index, None) == Add
    requires index > 0 ==> RowsOf(s.rows, Of(m.id)) != []
    ensures Find(RowsOf(s.rows, Of(m.id)), index).None? && MayJoin(RowsOf(s.rows, Of(m.id)), m, index)
  {
    var rows := RowsOf(s.rows, Of(m.id));
    assert RowsTied(s, m.id);
    AddsOnlyGaps(rows, m, index);
  }

  lemma PartOffKeepsTied(s: Store, m: Message, index: nat, k: nat)
    requires index < |m.parts| && Tied(s) && (index > 0 ==> RowsOf(s.rows, Of(m.id)) != [])
    requires k <= |PlanOff(s, m, index).ops|
    ensures Tied(Exec(s, PlanOff(s, m, index).ops[..k]))
  {
    hide Tied, AllPlain, MayJoin, Judge;
    match Judge(RowsOf(s.rows, Of(m.id)), m, index, None)
    case Add => GapMayJoin(s, m, index); AdditionKeepsTied(s, m, index, k);
    case Shown(_, _) => ShownIsPlain(s, m, index); PrefixKeepsTied(s, m, PlanOff(s, m, index).ops, k);
    case _ => assert PlanOff(s, m, index).ops[..k] == [];
  }

  /** Rows are never removed. */
  lemma {:induction false} RowsStay(s: Store, ops: seq<Op>, id: Id)
    requires RowsOf(s.rows, id) != []
    ensures RowsOf(Exec(s, ops).rows, id) != []
    decreases |ops|
  {
    if ops != [] {
      if ops[0].Save? { SetMetaAt(RowsOf(s.rows, ops[0].id), ops[0].part, ops[0].meta); }
      RowsStay(Apply(s, ops[0]), ops[1..], id);
    }
  }

  predicate Started(s: Store, events: seq<Event>) {
    forall e :: e in events && e.Part? ==> RowsOf(s.rows, Of(e.message.id)) != []
  }

  lemma OffStarts(s: Store, m: Message, index: nat)
    requires index < |m.parts| && PlanOff(s, m, index).ok
    ensures RowsOf(Exec(s, PlanOff(s, m, index).ops).rows, Of(m.id)) != []
  {
    if Judge(RowsOf(s.rows, Of(m.id)), m, index, None) == Add {
      AddedEvent(s, m, index);
    } else {
      RowsStay(s, PlanOff(s, m, index).ops, Of(m.id));
    }
  }

  lemma {:induction false} AttemptOffKeepsTied(s: Store, past: seq<Event>, events: seq<Event>, budget: nat)
    requires OnlyParts(events) && Ordered(past, events) && Tied(s) && Started(s, past)
    ensures Tied(AttemptOff(s, events, budget))
    decreases |events|
  {
    hide Tied, PlanOff;
    if events != [] {
      var e := events[0];
      assert e in events && past + events[..0] == past;
      var plan := PlanOff(s, e.message, e.index);
      PartOffKeepsTied(s, e.message, e.index, if budget < |plan.ops| then budget else |plan.ops|);
      assert plan.ops[..|plan.ops|] == plan.ops;
      if budget >= |plan.ops| && plan.ok {
        OffStarts(s, e.message, e.index);
        forall f | f in past && f.Part? ensures RowsOf(Exec(s, plan.ops).rows, Of(f.message.id)) != [] {
          RowsStay(s, plan.ops, Of(f.message.id));
        }
        OrderedRest(past, events);
        AttemptOffKeepsTied(Exec(s, plan.ops), past + [e], events[1..], budget - |plan.ops|);
      }
    }
  }

  // ---------------------------------------------------------------- when a dispatch succeeds

  /** A row whose presentation is to change and whose event this sender may not edit. */
  predicate Denies(row: Row, m: Message, content: Content) {
    && !row.mine && m.source.role.Assistant? && row.meta.shown != Some(content)
    && !(row.meta.shown.None? && content == m.source.body)
  }

  /**
   The first row of another source or layout, unless one holding the whole message comes before it; or,
   if there is neither, a row that is to be presented anew and belongs to someone else.
   */
  predicate Refused(s: Store, m: Message) {
    var rows := RowsOf(s.rows, Of(m.id));
    var barrier := Barrier(rows, m);
    if barrier.Some? then !Fits(barrier.value, m)
    else exists r :: r in rows && r.part < |m.parts| && Denies(r, m, m.parts[r.part])
  }

  /** The row at k is foreign, or holds the user's own message whole, and none before it is either. */
  predicate FirstToDecide(rows: seq<Row>, m: Message, k: nat) {
    && k < |rows| && (Foreign(rows[k], m) || OwnWhole(rows[k], m))
    && forall j :: 0 <= j < k ==> !Foreign(rows[j], m) && !OwnWhole(rows[j], m)
  }

  /**
   By what is stored of its rows: a foreign one is met before any that holds the whole message; or there
   is neither, and an assistant's part that records another presentation is someone else's.
   */
  predicate TurnedAway(rows: seq<Row>, m: Message) {
    || (exists k :: 0 <= k < |rows| && FirstToDecide(rows, m, k) && Foreign(rows[k], m))
    || ((forall r :: r in rows ==> !Foreign(r, m) && !OwnWhole(r, m))
        && exists r :: r in rows && r.part < |m.parts| && Denies(r, m, m.parts[r.part]))
  }

  lemma {:induction false} BarrierIsFirst(rows: seq<Row>, m: Message) returns (k: nat)
    ensures Barrier(rows, m).Some? ==> FirstToDecide(rows, m, k) && rows[k] == Barrier(rows, m).value
    ensures Barrier(rows, m).None? ==> forall r :: r in rows ==> !Foreign(r, m) && !OwnWhole(r, m)
  {
    k := 0;
    if rows != [] && Fits(rows[0], m) && !HoldsWhole(rows[0], m) {
      var rest := BarrierIsFirst(rows[1..], m);
      k := rest + 1;
      assert forall j :: 0 < j < |rows| ==> rows[j] == rows[1..][j - 1];
      assert forall r :: r in rows <==> r == rows[0] || r in rows[1..];
    }
  }

  lemma RefusedIsTurnedAway(s: Store, m: Message)
    ensures Refused(s, m) <==> TurnedAway(RowsOf(s.rows, Of(m.id)), m)
  {
    hide Denies;
    var rows := RowsOf(s.rows, Of(m.id));
    var k := BarrierIsFirst(rows, m);
    if Barrier(rows, m).Some? {
      forall j: nat | FirstToDecide(rows, m, j) ensures j == k {
        assert !(j < k) && !(k < j);
      }
      assert rows[k] in rows;
    } else {
      forall j: nat ensures !FirstToDecide(rows, m, j) {
        if j < |rows| { assert rows[j] in rows; }
      }
    }
  }

  /** The part's event is not refused. */
  predicate Accepts(rows: seq<Row>, m: Message, index: nat)
    requires index < |m.parts|
  {
    var target := Find(rows, index);
    var barrier := Barrier(rows, m);
    if barrier.Some? then Fits(barrier.value, m) else target.None? || !Denies(target.value, m, m.parts[index])
  }

  lemma OkIsAccepted(s: Store, m: Message, index: nat)
    requires index < |m.parts| && Distinct(RowsOf(s.rows, Of(m.id)))
    ensures PlanOff(s, m, index).ok <==> Accepts(RowsOf(s.rows, Of(m.id)), m, index)
  {
    JudgeIs(RowsOf(s.rows, Of(m.id)), m, index);
  }

  lemma AllAccepted(s: Store, m: Message)
    requires |m.parts| > 0 && Distinct(RowsOf(s.rows, Of(m.id)))
    ensures (forall i: nat :: i < |m.parts| ==> PlanOff(s, m, i).ok) <==> !Refused(s, m)
  {
    var rows := RowsOf(s.rows, Of(m.id));
    forall i: nat | i < |m.parts| ensures PlanOff(s, m, i).ok <==> Accepts(rows, m, i) { OkIsAccepted(s, m, i); }
    if !Refused(s, m) {
      forall i: nat | i < |m.parts| ensures Accepts(rows, m, i) { FindIs(rows, i); }
    }
    if forall i: nat :: i < |m.parts| ==> PlanOff(s, m, i).ok {
      assert Accepts(rows, m, 0);
      forall r | r in rows && r.part < |m.parts| && Barrier(rows, m).None? ensures !Denies(r, m, m.parts[r.part]) {
        FindMember(rows, r);
        assert PlanOff(s, m, r.part).ok && Accepts(rows, m, r.part);
      }
    }
  }

  /** Rows that no longer open, or were not open, decide as they did; each part keeps its own row. */
  lemma LaterIsAlike(rows: seq<Row>, after: seq<Row>, m: Message, index: nat, other: nat)
    requires index < |m.parts| && other < |m.parts| && index != other && Distinct(rows) && Becomes(rows, after, m, other)
    ensures Barrier(after, m) == Barrier(rows, m)
    ensures Find(after, index) == Find(rows, index)
  {
    BarrierIs(rows, m);
    BarrierIs(after, m);
    JudgeIs(rows, m, other);
    if Judge(rows, m, other, None).Add? {
      var row := Row(other, after[|rows|].event, true, NewMeta(m, other));
      AddsOnlyGaps(rows, m, other);
      FindAfterAdd(rows, row, index);
      assert forall r :: r in after <==> r in rows || r == row;
    } else if Judge(rows, m, other, None).Shown? {
      ShownRests(rows, m, other);
      FindAfterSet(rows, other, Judge(rows, m, other, None).meta, index);
    }
  }

  /** Another event of the dispatch: another part of the message, or a part of another. */
  lemma OkStays(s: Store, m: Message, index: nat, n: Message, other: nat)
    requires index < |m.parts| && other < |n.parts| && (m.id == n.id ==> m == n && index != other) && Well(s)
    ensures PlanOff(Exec(s, PlanOff(s, n, other).ops), m, index).ok <==> PlanOff(s, m, index).ok
  {
    hide PlanOff, Becomes;
    var ops := PlanOff(s, n, other).ops;
    var next := Exec(s, ops);
    OpsAre(s, n, other);
    assert Distinct(RowsOf(s.rows, Of(m.id)));
    if m.id != n.id {
      OtherRows(s, ops, Of(n.id), Of(m.id));
      SamePlan(s, next, m, index);
    } else {
      RowsLater(s, m, other);
      DistinctLater(s, m, other);
      LaterIsAlike(RowsOf(s.rows, Of(m.id)), RowsOf(next.rows, Of(m.id)), m, index, other);
      OkIsAccepted(s, m, index);
      OkIsAccepted(next, m, index);
    }
  }

  predicate AllOk(s: Store, events: seq<Event>)
    requires OnlyParts(events)
  {
    forall e :: e in events ==> PlanOff(s, e.message, e.index).ok
  }

  lemma {:induction false} DeliverSucceedsOff(s: Store, events: seq<Event>)
    requires OnlyParts(events) && Coherent(events) && Well(s)
    ensures DeliverOff(s, events).ok <==> AllOk(s, events)
    decreases |events|
  {
    hide PlanOff;
    if events != [] {
      var f, rest := events[0], events[1..];
      assert f in events;
      var ops := PlanOff(s, f.message, f.index).ops;
      var next := Exec(s, ops);
      assert ops[..|ops|] == ops;
      OffKeepsWell(s, f.message, f.index, |ops|);
      assert OnlyParts(rest) && Coherent(rest) by { assert forall k :: 0 <= k < |rest| ==> rest[k] == events[k + 1]; }
      DeliverSucceedsOff(next, rest);
      forall e | e in rest ensures PlanOff(next, e.message, e.index).ok <==> PlanOff(s, e.message, e.index).ok {
        var k :| 0 <= k < |rest| && rest[k] == e;
        assert events[k + 1] == e && events[0] == f;
        OkStays(s, e.message, e.index, f.message, f.index);
      }
      assert forall e :: e in events <==> e == f || e in rest;
    }
  }

  /** The part events of a snapshot, pairwise compatible, parts in order. */
  lemma SnapshotEvents(messages: seq<Message>)
    requires DistinctIds(messages)
    ensures OnlyParts(EventsOf(messages)) && Coherent(EventsOf(messages)) && Ordered([], EventsOf(messages))
    ensures forall m, i: nat :: m in messages && i < |m.parts| ==> Part(m, i) in EventsOf(messages)
    ensures forall e :: e in EventsOf(messages) ==> e.message in messages
  {
    EventsAre(messages);
    DispatchedCoherent(None, messages);
    EventsOrdered([], messages);
    assert Dispatched(None, messages) == EventsOf(messages) by { assert [] + EventsOf(messages) == EventsOf(messages); }
  }

  /** A dispatch with edits off that is not cut off succeeds exactly when no message is refused. */
  lemma OffSucceeds(s: Store, messages: seq<Message>)
    requires Well(s) && Snapshot(messages)
    ensures OnlyParts(EventsOf(messages))
    ensures DeliverOff(s, EventsOf(messages)).ok <==> forall m :: m in messages ==> !Refused(s, m)
    ensures DeliverOff(s, EventsOf(messages)).ok <==> forall m :: m in messages ==> !TurnedAway(RowsOf(s.rows, Of(m.id)), m)
  {
    hide PlanOff, Refused, TurnedAway;
    forall m | m in messages ensures Refused(s, m) <==> TurnedAway(RowsOf(s.rows, Of(m.id)), m) { RefusedIsTurnedAway(s, m); }
    var events := EventsOf(messages);
    SnapshotEvents(messages);
    DeliverSucceedsOff(s, events);
    forall m | m in messages ensures (forall i: nat :: i < |m.parts| ==> PlanOff(s, m, i).ok) <==> !Refused(s, m) {
      assert Distinct(RowsOf(s.rows, Of(m.id)));
      AllAccepted(s, m);
    }
    if AllOk(s, events) {
      forall m | m in messages ensures !Refused(s, m) {
        forall i: nat | i < |m.parts| ensures PlanOff(s, m, i).ok { assert Part(m, i) in events; }
      }
    }
    if forall m :: m in messages ==> !Refused(s, m) {
      forall e | e in events ensures PlanOff(s, e.message, e.index).ok { assert e.message in messages; }
    }
  }

  // ---------------------------------------------------------------- what a dispatch shows

  /** What a part's event with edits off does, if anything, will make the part show its content. */
  predicate DueOff(s: Store, m: Message, index: nat)
    requires index < |m.parts|
  {
    var rows := RowsOf(s.rows, Of(m.id));
    var target := Find(rows, index);
    match Judge(rows, m, index, None)
    case Add => AdditionDue(s, m, index)
    case Shown(_, Some(content)) =>
      target.Some? && (Presentation(Of(m.id), index, content) !in s.accepted || Visible(s.timeline, target.value.event) == Some(content))
    case _ => target.Some? && Visible(s.timeline, target.value.event) == Some(m.parts[index])
  }

  /**
   With edits off a part's event that succeeds shows the part exactly when its transaction, which
   names only the content, is new to the homeserver, or its event shows the content anyway.
   */
  lemma OffShowsExactly(s: Store, m: Message, index: nat)
    requires index < |m.parts| && Tied(s) && PlanOff(s, m, index).ok
    ensures PartShown(Exec(s, PlanOff(s, m, index).ops), m, index) <==> DueOff(s, m, index)
  {
    hide Tied, Visible, Judge;
    var rows := RowsOf(s.rows, Of(m.id));
    match Judge(rows, m, index, None)
    case Add =>
      AddsOnlyGaps(rows, m, index);
      AddedShowsExactly(s, m, index);
    case Shown(meta, request) =>
      ShownHasRow(s, m, index);
      TiedRows(s, m.id);
      PresentedOps(s, m, index);
      FindAfterSet(rows, index, meta, index);
      var row := Find(rows, index).value;
      if request.Some? { VisibleAfter(s.timeline, Sent(Some(PresentOf(m, index, row.event, request.value).key), Replace(row.event, request.value)), row.event); }
    case _ =>
  }

  // ---------------------------------------------------------------- the whole dispatch

  lemma OffIsConfined(s: Store, m: Message, index: nat)
    requires index < |m.parts| && Distinct(RowsOf(s.rows, Of(m.id)))
    ensures Confined(RowsOf(s.rows, Of(m.id)), m, index, PlanOff(s, m, index).ops)
  {
    FindIs(RowsOf(s.rows, Of(m.id)), index);
  }

  /** Another event of the dispatch changes nothing that bears on a part. */
  lemma OthersAreSameOff(s: Store, m: Message, index: nat, n: Message, other: nat)
    requires index < |m.parts| && other < |n.parts| && (m.id == n.id ==> m == n && index != other) && Tied(s)
    ensures SameFor(s, Exec(s, PlanOff(s, n, other).ops), m, index)
  {
    hide PlanOff, Tied, SameFor, Framed, Confined;
    TiedIsWell(s);
    var ops := PlanOff(s, n, other).ops;
    assert Distinct(RowsOf(s.rows, Of(n.id)));
    OffIsConfined(s, n, other);
    OpsAreFramed(s, RowsOf(s.rows, Of(n.id)), n, other, ops);
    assert ops[..|ops|] == ops;
    OffKeepsWell(s, n, other, |ops|);
    FramedIsSame(s, Exec(s, ops), m, index, n, other);
  }

  /** Each part's own row decides, and goes on to. */
  predicate Looked(s: Store, m: Message) {
    Barrier(RowsOf(s.rows, Of(m.id)), m).None?
  }

  lemma BarrierStays(s: Store, m: Message, index: nat, n: Message, other: nat)
    requires index < |m.parts| && other < |n.parts| && (m.id == n.id ==> m == n && index != other) && Well(s)
    ensures Barrier(RowsOf(Exec(s, PlanOff(s, n, other).ops).rows, Of(m.id)), m) == Barrier(RowsOf(s.rows, Of(m.id)), m)
  {
    hide PlanOff, Becomes;
    var ops := PlanOff(s, n, other).ops;
    OpsAre(s, n, other);
    assert Distinct(RowsOf(s.rows, Of(m.id)));
    if m.id != n.id {
      OtherRows(s, ops, Of(n.id), Of(m.id));
    } else {
      RowsLater(s, m, other);
      LaterIsAlike(RowsOf(s.rows, Of(m.id)), RowsOf(Exec(s, ops).rows, Of(m.id)), m, index, other);
    }
  }

  lemma SameDue(s: Store, next: Store, m: Message, index: nat)
    requires index < |m.parts| && SameFor(s, next, m, index) && Looked(s, m) && Looked(next, m)
    requires Distinct(RowsOf(s.rows, Of(m.id))) && Distinct(RowsOf(next.rows, Of(m.id)))
    ensures DueOff(next, m, index) <==> DueOff(s, m, index)
  {
    JudgeIs(RowsOf(s.rows, Of(m.id)), m, index);
    JudgeIs(RowsOf(next.rows, Of(m.id)), m, index);
    FindIs(RowsOf(s.rows, Of(m.id)), index);
  }

  lemma SameShown(s: Store, next: Store, m: Message, index: nat)
    requires index < |m.parts| && SameFor(s, next, m, index)
    ensures PartShown(next, m, index) <==> PartShown(s, m, index)
  {
    FindIs(RowsOf(s.rows, Of(m.id)), index);
  }

  /** What one event of a dispatch keeps: the store is tied and the dispatch in turn. */
  lemma OffGoesOn(s: Store, past: seq<Event>, events: seq<Event>)
    requires OnlyParts(events) && events != [] && Ordered(past, events) && Tied(s) && Started(s, past)
    requires events[0] in events && PlanOff(s, events[0].message, events[0].index).ok
    ensures var next := Exec(s, PlanOff(s, events[0].message, events[0].index).ops);
      Tied(next) && Started(next, past + [events[0]]) && Ordered(past + [events[0]], events[1..]) && OnlyParts(events[1..])
  {
    hide PlanOff, Tied;
    var e := events[0];
    var ops := PlanOff(s, e.message, e.index).ops;
    assert past + events[..0] == past && ops[..|ops|] == ops;
    PartOffKeepsTied(s, e.message, e.index, |ops|);
    OffStarts(s, e.message, e.index);
    forall f | f in past && f.Part? ensures RowsOf(Exec(s, ops).rows, Of(f.message.id)) != [] { RowsStay(s, ops, Of(f.message.id)); }
    OrderedRest(past, events);
  }

  /** A part shown, or not, stays so through the events of other parts. */
  lemma {:induction false} ShownStaysOff(s: Store, past: seq<Event>, events: seq<Event>, m: Message, index: nat)
    requires OnlyParts(events) && Ordered(past, events) && Tied(s) && Started(s, past) && DeliverOff(s, events).ok
    requires index < |m.parts| && forall f :: f in events ==> Compatible(Part(m, index), f)
    ensures PartShown(DeliverOff(s, events).store, m, index) <==> PartShown(s, m, index)
    decreases |events|
  {
    hide PlanOff, Tied, PartShown;
    if events != [] {
      var f := events[0];
      assert f in events;
      OthersAreSameOff(s, m, index, f.message, f.index);
      SameShown(s, Exec(s, PlanOff(s, f.message, f.index).ops), m, index);
      OffGoesOn(s, past, events);
      ShownStaysOff(Exec(s, PlanOff(s, f.message, f.index).ops), past + [f], events[1..], m, index);
    }
  }

  predicate ShownAsDue(s: Store, after: Store, e: Event)
    requires e.Part? && e.index < |e.message.parts|
  {
    PartShown(after, e.message, e.index) <==> DueOff(s, e.message, e.index)
  }

  lemma FirstCompatible(events: seq<Event>, e: Event)
    requires Coherent(events) && events != [] && e in events[1..]
    ensures Compatible(events[0], e) && Compatible(e, events[0])
  {
    var k :| 0 <= k < |events[1..]| && events[1..][k] == e;
    assert events[k + 1] == e;
  }

  lemma {:induction false} DeliverShowsOff(s: Store, past: seq<Event>, events: seq<Event>)
    requires OnlyParts(events) && Coherent(events) && Ordered(past, events)
    requires Tied(s) && Started(s, past) && DeliverOff(s, events).ok
    ensures forall e :: e in events && Looked(s, e.message) ==> ShownAsDue(s, DeliverOff(s, events).store, e)
    decreases |events|
  {
    hide PlanOff, Tied, PartShown, DueOff, Looked, Compatible;
    if events != [] {
      var f, rest := events[0], events[1..];
      assert f in events;
      var next := Exec(s, PlanOff(s, f.message, f.index).ops);
      OffGoesOn(s, past, events);
      assert Coherent(rest) by { assert forall k :: 0 <= k < |rest| ==> rest[k] == events[k + 1]; }
      DeliverShowsOff(next, past + [f], rest);
      forall e | e in rest ensures Compatible(f, e) { FirstCompatible(events, e); }
      ShownStaysOff(next, past + [f], rest, f.message, f.index);
      OffShowsExactly(s, f.message, f.index);
      forall e | e in rest && Looked(s, e.message) ensures ShownAsDue(s, DeliverOff(s, events).store, e) {
        FirstCompatible(events, e);
        ElseIsAlike(s, f, e);
      }
      assert forall e :: e in events <==> e == f || e in rest;
    }
  }

  lemma ElseIsAlike(s: Store, f: Event, e: Event)
    requires f.Part? && f.index < |f.message.parts| && e.Part? && e.index < |e.message.parts| && Compatible(e, f)
    requires Tied(s) && Looked(s, e.message)
    ensures var next := Exec(s, PlanOff(s, f.message, f.index).ops);
      Looked(next, e.message) && (DueOff(next, e.message, e.index) <==> DueOff(s, e.message, e.index))
  {
    hide PlanOff, Tied, DueOff, SameFor;
    var m, ops := e.message, PlanOff(s, f.message, f.index).ops;
    TiedIsWell(s);
    OthersAreSameOff(s, m, e.index, f.message, f.index);
    BarrierStays(s, m, e.index, f.message, f.index);
    assert ops[..|ops|] == ops;
    OffKeepsWell(s, f.message, f.index, |ops|);
    assert Distinct(RowsOf(s.rows, Of(m.id))) && Distinct(RowsOf(Exec(s, ops).rows, Of(m.id)));
    SameDue(s, Exec(s, ops), m, e.index);
  }

  predicate AllShown(s: Store, m: Message) {
    forall i: nat :: i < |m.parts| ==> PartShown(s, m, i)
  }

  predicate AllDueOff(s: Store, m: Message) {
    forall i: nat :: i < |m.parts| ==> DueOff(s, m, i)
  }

  /**
   What a dispatch with edits off shows: a message whose rows are all of its source and layout, none of
   them holding it whole, shows its parts exactly when each request the dispatch plans for it is
   new to the homeserver or was accepted for an event that shows the content anyway, and the
   parts it leaves alone show theirs.
   */
  lemma OffDispatchShowsExactly(s: Store, messages: seq<Message>, m: Message)
    requires Tied(s) && Snapshot(messages) && (forall n :: n in messages ==> !Refused(s, n))
    requires m in messages && Looked(s, m)
    ensures OnlyParts(EventsOf(messages)) && DeliverOff(s, EventsOf(messages)).ok
    ensures AllShown(DeliverOff(s, EventsOf(messages)).store, m) <==> AllDueOff(s, m)
  {
    hide Tied, PartShown, DueOff, Looked;
    var events := EventsOf(messages);
    SnapshotEvents(messages);
    TiedIsWell(s);
    OffSucceeds(s, messages);
    DeliverShowsOff(s, [], events);
    var after := DeliverOff(s, events).store;
    forall i: nat | i < |m.parts| ensures PartShown(after, m, i) <==> DueOff(s, m, i) {
      assert Part(m, i) in events && ShownAsDue(s, after, Part(m, i));
    }
  }

  // ---------------------------------------------------------------- what it leaves alone

  /** A message one row of which is whole: nothing of it changes. */
  lemma LeftByOne(s: Store, m: Message, n: Message, other: nat)
    requires |m.parts| > 0 && other < |n.parts| && (m.id == n.id ==> m == n) && Tied(s)
    requires !Looked(s, m) && !Refused(s, m)
    ensures LeftAlone(s, Exec(s, PlanOff(s, n, other).ops), m)
  {
    hide Tied, SameFor, Becomes;
    TiedRows(s, m.id);
    var rows := RowsOf(s.rows, Of(m.id));
    var next := Exec(s, PlanOff(s, n, other).ops);
    if m.id == n.id {
      JudgeIs(rows, m, other);
    } else {
      OpsAre(s, n, other);
      OtherRows(s, PlanOff(s, n, other).ops, Of(n.id), Of(m.id));
      forall r | r in rows ensures Visible(next.timeline, r.event) == Visible(s.timeline, r.event) {
        var i := if r.part < |m.parts| then r.part else 0;
        OthersAreSameOff(s, m, i, n, other);
        RowIsSame(s, next, m, i, r);
      }
    }
  }

  lemma RowIsSame(s: Store, next: Store, m: Message, i: nat, r: Row)
    requires i < |m.parts| && SameFor(s, next, m, i) && r in RowsOf(s.rows, Of(m.id)) && InScope(m, i, r.part)
    ensures Visible(next.timeline, r.event) == Visible(s.timeline, r.event)
  {
  }

  lemma {:induction false} LeftByAll(s: Store, past: seq<Event>, events: seq<Event>, m: Message)
    requires OnlyParts(events) && Ordered(past, events) && Tied(s) && Started(s, past) && DeliverOff(s, events).ok
    requires |m.parts| > 0 && (forall f :: f in events && f.message.id == m.id ==> f.message == m)
    requires !Looked(s, m) && !Refused(s, m)
    ensures LeftAlone(s, DeliverOff(s, events).store, m)
    decreases |events|
  {
    hide PlanOff, Tied;
    if events != [] {
      var f := events[0];
      assert f in events;
      LeftByOne(s, m, f.message, f.index);
      OffGoesOn(s, past, events);
      LeftByAll(Exec(s, PlanOff(s, f.message, f.index).ops), past + [f], events[1..], m);
    }
  }

  /** A message one row of which holds it whole keeps its rows and what their events show. */
  lemma OffLeavesWhole(s: Store, messages: seq<Message>, m: Message)
    requires Tied(s) && Snapshot(messages) && (forall n :: n in messages ==> !Refused(s, n))
    requires m in messages && !Looked(s, m)
    ensures OnlyParts(EventsOf(messages)) && LeftAlone(s, DeliverOff(s, EventsOf(messages)).store, m)
  {
    hide Tied, Looked, Refused;
    var events := EventsOf(messages);
    SnapshotEvents(messages);
    TiedIsWell(s);
    OffSucceeds(s, messages);
    forall f | f in events && f.message.id == m.id ensures f.message == m { SameMessage(messages, f.message, m); }
    LeftByAll(s, [], events, m);
  }
}
