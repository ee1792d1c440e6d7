/**
 Convergence with edits on: after any completed rounds, a dispatch that succeeds leaves every part of every
 message showing exactly the content the source has for it, every part past the last showing
 the tombstone, and every request it made was new to the homeserver.
 */
module MirrorConverge {
  import opened Mirror
  import opened MirrorResume
  import opened MirrorEvents
  import opened MirrorExact

  /** splitMessage on a user message, which depends on nothing but its text. */
  type Splitter = Source -> seq<Content>

  // ---------------------------------------------------------------- what holds between rounds

  function CountFor(parts: seq<Content>): nat {
    if |parts| > 1 then |parts| else 0
  }

  /** What a row without a presentation hash says its event shows. */
  predicate PlainTrue(s: Store, row: Row, split: Splitter) {
    var source := row.meta.hash;
    && source.role.User?
    && if IsTyped(s, row) then row.meta.count == 0 && (row.meta.attachments || Visible(s.timeline, row.event) == Some(source.body))
       else
         && !row.meta.attachments && row.part < |split(source)| && row.meta.count == CountFor(split(source))
         && Visible(s.timeline, row.event) == Some(split(source)[row.part])
  }

  /** The row tells the truth about what its event shows. */
  predicate RowTrue(s: Store, message: nat, row: Row, split: Splitter) {
    && Owned(s, message, row)
    && (row.meta.shown.Some? ==>
          !row.meta.attachments && !Whole(row) && Visible(s.timeline, row.event) == row.meta.shown)
    && (row.meta.shown.None? ==> PlainTrue(s, row, split))
  }

  ghost predicate MessageOk(s: Store, message: nat, split: Splitter) {
    var rows := RowsOf(s.rows, Of(message));
    Shaped(rows) && forall r :: r in rows ==> RowTrue(s, message, r, split)
  }

  /** Every accepted transaction of a part is at most as recent as the part's row. */
  predicate Covered(rows: seq<Row>, key: Key) {
    var row := Find(rows, key.part);
    row.Some? && (key.Edit? ==> key.generation <= row.value.meta.generation)
  }

  ghost predicate KeysCovered(s: Store) {
    forall k :: k in s.accepted && k.id.Of? ==> Covered(RowsOf(s.rows, k.id), k)
  }

  predicate SamePart(k: Key, l: Key) {
    k.Edit? && l.Edit? && k.id == l.id && k.part == l.part
  }

  /** The edits of a part stand on the timeline in order of their generations, none twice. */
  predicate EditsIncrease(timeline: seq<Sent>) {
    forall i, j :: 0 <= i < j < |timeline| && timeline[i].key.Some? && timeline[j].key.Some?
      && SamePart(timeline[i].key.value, timeline[j].key.value)
      ==> timeline[i].key.value.generation < timeline[j].key.value.generation
  }

  ghost predicate Good(s: Store, split: Splitter) {
    && Well(s)
    && Served(s)
    && Posted(s)
    && (forall message: nat :: MessageOk(s, message, split))
    && KeysCovered(s)
    && EditsIncrease(s.timeline)
  }

  lemma GoodIsTied(s: Store, split: Splitter)
    requires Good(s, split)
    ensures Tied(s)
  {
    forall message: nat ensures RowsTied(s, message) {
      assert MessageOk(s, message, split);
      forall r | r in RowsOf(s.rows, Of(message)) ensures Owned(s, message, r) && HoldsOwn(r) { assert RowTrue(s, message, r, split); }
    }
  }

  /** A message whose parts are what splitMessage gives; for a user that depends on its text alone. */
  predicate Faithful(m: Message, split: Splitter) {
    m.source.role.User? ==> m.parts == split(m.source)
  }

  // ---------------------------------------------------------------- the timeline

  /** An event that edits nothing changes what no row's event shows. */
  lemma NewEventKeepsTruth(s: Store, next: Store, sent: Sent, message: nat, row: Row, split: Splitter)
    requires next.timeline == s.timeline + [sent] && !sent.post.Replace? && RowTrue(s, message, row, split)
    ensures RowTrue(next, message, row, split)
  {
    VisibleAfter(s.timeline, sent, row.event);
  }

  // ---------------------------------------------------------------- one edit

  /** In a good store the transaction of the next edit of a row is new to the homeserver. */
  lemma EditIsFresh(s: Store, m: Message, c: Change, split: Splitter)
    requires Good(s, split) && c.row in RowsOf(s.rows, Of(m.id))
    ensures EditOf(m, c).key !in s.accepted
  {
    var rows := RowsOf(s.rows, Of(m.id));
    assert MessageOk(s, m.id, split);
    FindMember(rows, c.row);
    forall k | k in s.accepted && k.id == Of(m.id) && k.Edit? && k.part == c.row.part
      ensures k.generation <= c.row.meta.generation
    {
      assert Covered(rows, k);
    }
  }

  /** An edit changes what its own row's event shows and no other's. */
  lemma EditKeepsTruth(s: Store, m: Message, c: Change, message: nat, row: Row, split: Splitter)
    requires EditOf(m, c).key !in s.accepted && |m.parts| > 0
    requires Owned(s, m.id, c.row) && RowTrue(s, message, row, split)
    ensures !(message == m.id && row.part == c.row.part) ==> RowTrue(Edited(s, m, c), message, row, split)
    ensures message == m.id && row.part == c.row.part && row.event == c.row.event ==>
      RowTrue(Edited(s, m, c), message, row.(meta := EditedMeta(m, c)), split)
  {
    var sent := Sent(Some(EditOf(m, c).key), EditOf(m, c).post);
    var next := Edited(s, m, c);
    assert next.timeline == s.timeline + [sent];
    VisibleAfter(s.timeline, sent, row.event);
    assert IsTyped(next, row) == IsTyped(s, row);
    if row.event == c.row.event { OwnerOf(s, message, row, m.id, c.row); }
  }

  lemma EditKeepsMessages(s: Store, m: Message, c: Change, message: nat, split: Splitter)
    requires Good(s, split) && c.row in RowsOf(s.rows, Of(m.id)) && |m.parts| > 0
    ensures MessageOk(Edited(s, m, c), message, split)
  {
    var rows := RowsOf(s.rows, Of(message));
    assert MessageOk(s, message, split) && MessageOk(s, m.id, split);
    EditIsFresh(s, m, c, split);
    EditedRows(s, m, c);
    var after := RowsOf(Edited(s, m, c).rows, Of(message));
    if message == m.id {
      EditKeepsShape(rows, m, c);
      SetMetaAt(rows, c.row.part, EditedMeta(m, c));
    }
    forall r | r in after ensures RowTrue(Edited(s, m, c), message, r, split) {
      var k :| 0 <= k < |after| && after[k] == r;
      EditKeepsTruth(s, m, c, message, rows[k], split);
      if message == m.id && rows[k].part == c.row.part {
        FindMember(rows, c.row);
        FindMember(rows, rows[k]);
      }
    }
  }

  lemma EditKeepsCovered(s: Store, m: Message, c: Change, split: Splitter)
    requires Good(s, split) && c.row in RowsOf(s.rows, Of(m.id))
    ensures KeysCovered(Edited(s, m, c))
  {
    var next := Edited(s, m, c);
    var rows := RowsOf(s.rows, Of(m.id));
    assert MessageOk(s, m.id, split);
    FindMember(rows, c.row);
    EditedRows(s, m, c);
    forall k | k in next.accepted && k.id.Of? ensures Covered(RowsOf(next.rows, k.id), k) {
      FindAfterSet(rows, c.row.part, EditedMeta(m, c), k.part);
      if k != EditOf(m, c).key { assert k in s.accepted && Covered(RowsOf(s.rows, k.id), k); }
    }
  }

  lemma EditKeepsOrder(s: Store, m: Message, c: Change, split: Splitter)
    requires Good(s, split) && c.row in RowsOf(s.rows, Of(m.id))
    ensures EditsIncrease(Edited(s, m, c).timeline)
  {
    var rows := RowsOf(s.rows, Of(m.id));
    assert MessageOk(s, m.id, split);
    FindMember(rows, c.row);
    EditIsFresh(s, m, c, split);
    forall i | 0 <= i < |s.timeline| && s.timeline[i].key.Some? && SamePart(s.timeline[i].key.value, EditOf(m, c).key)
      ensures s.timeline[i].key.value.generation <= c.row.meta.generation
    {
      assert s.timeline[i].key.value in s.accepted;
      assert Covered(rows, s.timeline[i].key.value);
    }
  }

  lemma EditKeepsWell(s: Store, m: Message, c: Change)
    requires Well(s)
    ensures Well(Edited(s, m, c))
  {
    EditedRows(s, m, c);
    forall id: Id ensures Distinct(RowsOf(Edited(s, m, c).rows, id)) {
      assert Distinct(RowsOf(s.rows, id));
      SetMetaAt(RowsOf(s.rows, Of(m.id)), c.row.part, EditedMeta(m, c));
    }
  }

  lemma EditKeepsGood(s: Store, m: Message, c: Change, split: Splitter)
    requires Good(s, split) && c.row in RowsOf(s.rows, Of(m.id)) && |m.parts| > 0
    ensures Good(Edited(s, m, c), split)
    ensures |Edited(s, m, c).timeline| == |s.timeline| + 1
  {
    EditKeepsWell(s, m, c);
    SendKeepsServed(s, EditOf(m, c).key, EditOf(m, c).post);
    EditKeepsCovered(s, m, c, split);
    EditKeepsOrder(s, m, c, split);
    EditIsFresh(s, m, c, split);
    forall message: nat ensures MessageOk(Edited(s, m, c), message, split) {
      EditKeepsMessages(s, m, c, message, split);
    }
  }

  // ---------------------------------------------------------------- all the edits of an event

  lemma {:induction false} EditsKeepGood(s: Store, m: Message, changes: seq<Change>, split: Splitter)
    requires Good(s, split) && |m.parts| > 0 && Separate(RowsOf(s.rows, Of(m.id)), changes)
    ensures Good(OneByOne(s, m, changes), split)
    ensures |OneByOne(s, m, changes).timeline| == |s.timeline| + |changes|
    decreases |changes|
  {
    if changes != [] {
      var c := changes[0];
      assert c in changes;
      EditKeepsGood(s, m, c, split);
      EditedRows(s, m, c);
      SeparateRest(RowsOf(s.rows, Of(m.id)), m, changes);
      EditsKeepGood(Edited(s, m, c), m, changes[1..], split);
    }
  }

  // ---------------------------------------------------------------- a new part

  lemma AddedIs(s: Store, m: Message, index: nat, split: Splitter)
    requires index < |m.parts| && Good(s, split) && Find(RowsOf(s.rows, Of(m.id)), index).None?
    ensures var key := Original(Of(m.id), index); var next := Added(s, m, index);
      && key !in s.accepted
      && next.timeline == s.timeline + [Sent(Some(key), New(m.parts[index]))]
      && next.accepted == s.accepted[key := |s.timeline|]
      && next.rows == s.rows[Of(m.id) := RowsOf(s.rows, Of(m.id)) + [Row(index, |s.timeline|, true, NewMeta(m, index))]]
  {
    var key := Original(Of(m.id), index);
    forall k | k in s.accepted && k.id == Of(m.id) ensures Find(RowsOf(s.rows, Of(m.id)), k.part).Some? {
      assert Covered(RowsOf(s.rows, Of(m.id)), k);
    }
    var addition := Addition(m, index);
    var sent := Apply(s, addition[0]);
    assert addition[1..] == [addition[1]] && [addition[1]][1..] == [];
    assert Exec(sent, [addition[1]]) == Exec(Apply(sent, addition[1]), []);
  }

  lemma AddKeepsTruth(s: Store, m: Message, index: nat, message: nat, row: Row, split: Splitter)
    requires index < |m.parts| && Good(s, split) && Find(RowsOf(s.rows, Of(m.id)), index).None?
    requires RowTrue(s, message, row, split)
    ensures RowTrue(Added(s, m, index), message, row, split)
  {
    AddedIs(s, m, index, split);
    NewEventKeepsTruth(s, Added(s, m, index), Sent(Some(Original(Of(m.id), index)), New(m.parts[index])), message, row, split);
  }

  lemma AddedIsTrue(s: Store, m: Message, index: nat, split: Splitter)
    requires index < |m.parts| && Good(s, split) && Find(RowsOf(s.rows, Of(m.id)), index).None? && Faithful(m, split)
    ensures RowTrue(Added(s, m, index), m.id, Row(index, |s.timeline|, true, NewMeta(m, index)), split)
  {
    AddedIs(s, m, index, split);
    VisibleAfter(s.timeline, Sent(Some(Original(Of(m.id), index)), New(m.parts[index])), |s.timeline|);
  }

  lemma AddKeepsMessages(s: Store, m: Message, index: nat, message: nat, split: Splitter)
    requires index < |m.parts| && Good(s, split) && Find(RowsOf(s.rows, Of(m.id)), index).None? && Faithful(m, split)
    requires MayJoin(RowsOf(s.rows, Of(m.id)), m, index)
    ensures MessageOk(Added(s, m, index), message, split)
  {
    var rows := RowsOf(s.rows, Of(message));
    assert MessageOk(s, message, split);
    AddedIs(s, m, index, split);
    var after := RowsOf(Added(s, m, index).rows, Of(message));
    if message == m.id {
      AddKeepsShape(rows, m, index, |s.timeline|);
      AddedIsTrue(s, m, index, split);
    }
    forall r | r in after ensures RowTrue(Added(s, m, index), message, r, split) {
      if r in rows { AddKeepsTruth(s, m, index, message, r, split); }
    }
  }

  lemma AddKeepsCovered(s: Store, m: Message, index: nat, split: Splitter)
    requires index < |m.parts| && Good(s, split) && Find(RowsOf(s.rows, Of(m.id)), index).None?
    ensures KeysCovered(Added(s, m, index))
  {
    var rows := RowsOf(s.rows, Of(m.id));
    AddedIs(s, m, index, split);
    var next := Added(s, m, index);
    forall k | k in next.accepted && k.id.Of? ensures Covered(RowsOf(next.rows, k.id), k) {
      FindAfterAdd(rows, Row(index, |s.timeline|, true, NewMeta(m, index)), k.part);
      if k != Original(Of(m.id), index) { assert Covered(RowsOf(s.rows, k.id), k); }
    }
  }

  lemma AddKeepsGood(s: Store, m: Message, index: nat, split: Splitter)
    requires index < |m.parts| && Good(s, split) && Find(RowsOf(s.rows, Of(m.id)), index).None? && Faithful(m, split)
    requires MayJoin(RowsOf(s.rows, Of(m.id)), m, index)
    ensures Good(Added(s, m, index), split)
    ensures |Added(s, m, index).timeline| == |s.timeline| + 1
  {
    AddedIs(s, m, index, split);
    var next := Added(s, m, index);
    AddKeepsCovered(s, m, index, split);
    assert EditsIncrease(next.timeline);
    forall message: nat ensures MessageOk(next, message, split) { AddKeepsMessages(s, m, index, message, split); }
    forall id: Id ensures Distinct(RowsOf(next.rows, id)) {
      assert Distinct(RowsOf(s.rows, id));
      FindIs(RowsOf(s.rows, Of(m.id)), index);
    }
  }

  // ---------------------------------------------------------------- one event

  lemma AdditionKeepsGood(s: Store, m: Message, index: nat, split: Splitter)
    requires index < |m.parts| && Good(s, split) && Faithful(m, split) && InTurn(s, m, index)
    requires Normal(RowsOf(s.rows, Of(m.id)), m, index) && Find(RowsOf(s.rows, Of(m.id)), index).None?
    ensures PlanFor(s, Part(m, index)).ops == Addition(m, index)
    ensures Good(Added(s, m, index), split) && Original(Of(m.id), index) !in s.accepted
  {
    GoodIsTied(s, split);
    JoinsInTurn(s, m, index);
    AddedIs(s, m, index, split);
    AddKeepsGood(s, m, index, split);
  }

  lemma ChangesKeepGood(s: Store, m: Message, index: nat, split: Splitter)
    requires index < |m.parts| && Good(s, split)
    requires Normal(RowsOf(s.rows, Of(m.id)), m, index) && Find(RowsOf(s.rows, Of(m.id)), index).Some?
    ensures Good(Exec(s, PlanFor(s, Part(m, index)).ops), split)
    ensures forall op :: op in PlanFor(s, Part(m, index)).ops && op.Send? ==> op.key !in s.accepted
  {
    var rows := RowsOf(s.rows, Of(m.id));
    var changes := Changes(rows, m, index);
    var marked := Marked(rows, m, index);
    assert MessageOk(s, m.id, split);
    NormalOps(s, m, index);
    assert Edits(m, changes) + (Saves(m, marked) + []) == Edits(m, changes) + Saves(m, marked);
    EventEdits(s, m, index);
    EditsKeepGood(s, m, changes, split);
    EditsAreFresh(s, m, changes, marked, split);
  }

  lemma NormalKeepsGood(s: Store, m: Message, index: nat, split: Splitter)
    requires index < |m.parts| && Good(s, split) && Faithful(m, split) && InTurn(s, m, index)
    requires Normal(RowsOf(s.rows, Of(m.id)), m, index)
    ensures Good(Exec(s, PlanFor(s, Part(m, index)).ops), split)
    ensures forall op :: op in PlanFor(s, Part(m, index)).ops && op.Send? ==> op.key !in s.accepted
  {
    if Find(RowsOf(s.rows, Of(m.id)), index).None? {
      AdditionKeepsGood(s, m, index, split);
    } else {
      ChangesKeepGood(s, m, index, split);
    }
  }

  lemma EditsAreFresh(s: Store, m: Message, changes: seq<Change>, marked: seq<Change>, split: Splitter)
    requires Good(s, split) && Separate(RowsOf(s.rows, Of(m.id)), changes)
    ensures forall op :: op in Edits(m, changes) + Saves(m, marked) && op.Send? ==> op.key !in s.accepted
  {
    hide Good;
    EditsAreSends(m, changes);
    EditsAreSends(m, marked);
    var ops := Edits(m, changes) + Saves(m, marked);
    assert forall i :: |changes| <= i < |ops| ==> ops[i] == SaveOf(m, marked[i - |changes|]);
    forall i | 0 <= i < |ops| && ops[i].Send? ensures ops[i].key !in s.accepted {
      if i < |changes| { EditIsFresh(s, m, changes[i], split); }
    }
  }

  /**
   Handling a part that succeeds keeps the store good, and every request it makes is new: no
   edit or original is ever mistaken for an earlier one.
   */
  lemma PartKeepsGood(s: Store, m: Message, index: nat, split: Splitter)
    requires index < |m.parts| && Good(s, split) && Faithful(m, split) && InTurn(s, m, index)
    requires PlanFor(s, Part(m, index)).ok
    ensures Good(Exec(s, PlanFor(s, Part(m, index)).ops), split)
    ensures forall op :: op in PlanFor(s, Part(m, index)).ops && op.Send? ==> op.key !in s.accepted
  {
    var rows := RowsOf(s.rows, Of(m.id));
    if Normal(rows, m, index) {
      NormalKeepsGood(s, m, index, split);
    } else {
      ScannedAll(rows, m);
      MineChanges(rows, m, index);
      assert MessageOk(s, m.id, split);
      SettledPlan(rows, m, index);
    }
  }

  lemma NoticeKeepsMessages(s: Store, checkpoint: Checkpoint, message: nat, split: Splitter)
    requires Good(s, split) && RowsOf(s.rows, NoticeOf(checkpoint)) == []
    ensures MessageOk(Exec(s, PlanFor(s, Branch(checkpoint)).ops), message, split)
  {
    var next := Exec(s, PlanFor(s, Branch(checkpoint)).ops);
    var key := Original(NoticeOf(checkpoint), 0);
    NoticeIs(s, checkpoint);
    assert MessageOk(s, message, split);
    forall r | r in RowsOf(next.rows, Of(message)) ensures RowTrue(next, message, r, split) {
      if key !in s.accepted { NewEventKeepsTruth(s, next, Sent(Some(key), Notice), message, r, split); }
    }
  }

  lemma NoticeKeepsTimeline(s: Store, checkpoint: Checkpoint, split: Splitter)
    requires Good(s, split) && RowsOf(s.rows, NoticeOf(checkpoint)) == []
    ensures var next := Exec(s, PlanFor(s, Branch(checkpoint)).ops); Well(next) && Served(next) && EditsIncrease(next.timeline)
  {
    var ops := PlanFor(s, Branch(checkpoint)).ops;
    NoticeIs(s, checkpoint);
    OpsKeepServed(s, ops);
    OpsKeepWell(s, ops);
  }

  lemma NoticeKeepsCovered(s: Store, checkpoint: Checkpoint, split: Splitter)
    requires Good(s, split) && RowsOf(s.rows, NoticeOf(checkpoint)) == []
    ensures KeysCovered(Exec(s, PlanFor(s, Branch(checkpoint)).ops))
  {
    var next := Exec(s, PlanFor(s, Branch(checkpoint)).ops);
    NoticeIs(s, checkpoint);
    forall k | k in next.accepted && k.id.Of? ensures Covered(RowsOf(next.rows, k.id), k) {
      assert Covered(RowsOf(s.rows, k.id), k);
    }
  }

  lemma NoticeKeepsGood(s: Store, checkpoint: Checkpoint, split: Splitter)
    requires Good(s, split)
    ensures Good(Exec(s, PlanFor(s, Branch(checkpoint)).ops), split)
  {
    if RowsOf(s.rows, NoticeOf(checkpoint)) == [] {
      var next := Exec(s, PlanFor(s, Branch(checkpoint)).ops);
      NoticeKeepsTimeline(s, checkpoint, split);
      GoodIsTied(s, split);
      assert PlanFor(s, Branch(checkpoint)).ops[..2] == PlanFor(s, Branch(checkpoint)).ops;
      NoticeKeepsTied(s, checkpoint, 2);
      NoticeKeepsCovered(s, checkpoint, split);
      forall message: nat ensures MessageOk(next, message, split) { NoticeKeepsMessages(s, checkpoint, message, split); }
    }
  }

  // ---------------------------------------------------------------- a dispatch

  predicate AllFaithful(events: seq<Event>, split: Splitter) {
    forall e :: e in events ==> e.Part? ==> Faithful(e.message, split)
  }

  lemma EventKeepsGood(s: Store, past: seq<Event>, events: seq<Event>, split: Splitter)
    requires ValidEvents(past) && ValidEvents(events) && events != [] && Ordered(past, events)
    requires Good(s, split) && AllDone(s, past) && AllFaithful(events, split) && PlanFor(s, events[0]).ok
    ensures Good(Exec(s, PlanFor(s, events[0]).ops), split)
  {
    var e := events[0];
    match e
    case Branch(checkpoint) => NoticeKeepsGood(s, checkpoint, split);
    case Part(m, index) =>
      assert past + events[..0] == past;
      PartKeepsGood(s, m, index, split);
  }

  lemma {:induction false} DeliverKeepsGood(s: Store, past: seq<Event>, events: seq<Event>, split: Splitter)
    requires ValidEvents(past) && ValidEvents(events) && Coherent(past + events) && Ordered(past, events)
    requires Good(s, split) && AllDone(s, past) && AllFaithful(events, split) && Deliver(s, events).ok
    ensures Good(Deliver(s, events).store, split) && ValidEvents(past + events) && AllDone(Deliver(s, events).store, past + events)
    decreases |events|
  {
    if events == [] {
      assert past + events == past;
    } else {
      EventKeepsGood(s, past, events, split);
      EventMovesOn(s, past, events);
      OrderedRest(past, events);
      DeliverKeepsGood(Exec(s, PlanFor(s, events[0]).ops), past + [events[0]], events[1..], split);
    }
  }

  // ---------------------------------------------------------------- convergence

  lemma SettledConverges(s: Store, m: Message, split: Splitter)
    requires Good(s, split) && Faithful(m, split) && |m.parts| > 0
    requires exists r :: r in RowsOf(s.rows, Of(m.id)) && Settling(r, m)
    ensures Shows(s, m) || Kept(s, m)
  {
    var rows := RowsOf(s.rows, Of(m.id));
    assert MessageOk(s, m.id, split);
    SettledPlan(rows, m, 0);
    var r := rows[0];
    assert rows == [r] && r in rows && RowTrue(s, m.id, r, split);
    if !IsTyped(s, r) { assert Find(rows, 0) == Some(r) && |m.parts| == 1; }
  }

  lemma PartShows(s: Store, m: Message, index: nat, split: Splitter)
    requires index < |m.parts| && Good(s, split) && Faithful(m, split) && Done(s, Part(m, index))
    requires forall r :: r in RowsOf(s.rows, Of(m.id)) ==> !Settling(r, m)
    ensures var rows := RowsOf(s.rows, Of(m.id));
      && Find(rows, index).Some? && Visible(s.timeline, Find(rows, index).value.event) == Some(m.parts[index])
      && (index == 0 ==> forall r :: r in rows && r.part >= |m.parts| ==> Visible(s.timeline, r.event) == Some(TOMBSTONE))
  {
    var rows := RowsOf(s.rows, Of(m.id));
    assert MessageOk(s, m.id, split);
    DoneIsFinished(s, m, index);
    FindIs(rows, index);
    assert RowTrue(s, m.id, Find(rows, index).value, split);
    StaleAre(rows, m);
  }

  lemma DoneConverges(s: Store, m: Message, split: Splitter)
    requires Good(s, split) && Faithful(m, split) && |m.parts| > 0
    requires forall i :: 0 <= i < |m.parts| ==> Done(s, Part(m, i))
    ensures Shows(s, m) || Kept(s, m)
  {
    var rows := RowsOf(s.rows, Of(m.id));
    if exists r :: r in rows && Settling(r, m) {
      SettledConverges(s, m, split);
    } else {
      forall i | 0 <= i < |m.parts|
        ensures Find(rows, i).Some? && Visible(s.timeline, Find(rows, i).value.event) == Some(m.parts[i])
      {
        PartShows(s, m, i, split);
      }
      PartShows(s, m, 0, split);
    }
  }

  predicate ValidSnapshot(messages: seq<Message>, split: Splitter) {
    && DistinctIds(messages)
    && forall m :: m in messages ==> |m.parts| > 0 && Faithful(m, split)
  }

  /**
   Convergence: from any good store, a dispatch that is not cut off succeeds exactly when no
   message is blocked by a row that is to be edited and belongs to someone else. Then it leaves
   every message of the snapshot showing its parts and tombstones, or left as the user typed it,
   and the store good.
   */
  lemma DispatchConverges(s: Store, notice: Option<Checkpoint>, messages: seq<Message>, split: Splitter)
    requires Good(s, split) && ValidSnapshot(messages, split)
    ensures ValidEvents(Dispatched(notice, messages))
    ensures Deliver(s, Dispatched(notice, messages)).ok <==> Unblocked(s, messages)
    ensures var after := Deliver(s, Dispatched(notice, messages)).store;
      Unblocked(s, messages) ==> Good(after, split) && forall m :: m in messages ==> Shows(after, m) || Kept(after, m)
  {
    GoodIsTied(s, split);
    DispatchSucceeds(s, notice, messages);
    if Unblocked(s, messages) { SuccessConverges(s, notice, messages, split); }
  }

  lemma SuccessConverges(s: Store, notice: Option<Checkpoint>, messages: seq<Message>, split: Splitter)
    requires Good(s, split) && ValidSnapshot(messages, split)
    requires ValidEvents(Dispatched(notice, messages)) && Deliver(s, Dispatched(notice, messages)).ok
    ensures var after := Deliver(s, Dispatched(notice, messages)).store;
      Good(after, split) && forall m :: m in messages ==> Shows(after, m) || Kept(after, m)
  {
    hide Good;
    var events := Dispatched(notice, messages);
    EventsAre(messages);
    DispatchedCoherent(notice, messages);
    DispatchedOrdered(notice, messages);
    assert [] + events == events;
    DeliverKeepsGood(s, [], events, split);
    var after := Deliver(s, events).store;
    forall m | m in messages ensures Shows(after, m) || Kept(after, m) {
      forall i | 0 <= i < |m.parts| ensures Done(after, Part(m, i)) { assert Part(m, i) in events; }
      DoneConverges(after, m, split);
    }
  }

  // ---------------------------------------------------------------- a dispatch given up

  /** An edit accepted and not saved leaves its transaction ahead of the row. */
  lemma EditUncovers(s: Store, m: Message, c: Change)
    requires Distinct(RowsOf(s.rows, Of(m.id))) && c.row in RowsOf(s.rows, Of(m.id)) && EditOf(m, c).key in s.accepted
    ensures !KeysCovered(s)
  {
    FindMember(RowsOf(s.rows, Of(m.id)), c.row);
    assert !Covered(RowsOf(s.rows, Of(m.id)), EditOf(m, c).key);
  }

  /** Cut off after some of its edits and before any row is saved. */
  lemma SentUncovers(s: Store, m: Message, changes: seq<Change>, k: nat)
    requires Distinct(RowsOf(s.rows, Of(m.id))) && 0 < k <= |changes| && changes[0].row in RowsOf(s.rows, Of(m.id))
    ensures k <= |Edits(m, changes)| && !KeysCovered(Exec(s, Edits(m, changes)[..k]))
  {
    EditsAreSends(m, changes);
    var sent := Edits(m, changes)[..k];
    SendsAreAnswered(s, sent);
    assert sent[0] == EditOf(m, changes[0]) && sent[0] in sent;
    EditUncovers(Exec(s, sent), m, changes[0]);
  }

  /** Cut off after all its edits and before the last row is saved. */
  lemma SavingUncovers(s: Store, m: Message, index: nat, t: nat)
    requires index < |m.parts|
    requires var rows := RowsOf(s.rows, Of(m.id)); Distinct(rows) && Normal(rows, m, index) && t < |Marked(rows, m, index)|
    ensures !KeysCovered(CutStore(s, m, index, t))
  {
    var rows := RowsOf(s.rows, Of(m.id));
    var changes, marked := Changes(rows, m, index), Marked(rows, m, index);
    var left := RowsOf(CutStore(s, m, index, t).rows, Of(m.id));
    var c := marked[t];
    RowsAfterCut(s, m, index, t);
    assert c == Marked(left, m, index)[0] && c in Marked(left, m, index);
    MarkedAre(left, m, index);
    ChangesAreMarked(rows, m, index);
    assert marked[t] in marked && c in changes;
    AcceptedThroughSaves(s, m, changes, Saves(m, marked[..t]), c);
    EditUncovers(CutStore(s, m, index, t), m, c);
  }

  lemma AcceptedThroughSaves(s: Store, m: Message, changes: seq<Change>, saves: seq<Op>, c: Change)
    requires c in changes
    ensures EditOf(m, c).key in Exec(Exec(s, Edits(m, changes)), saves).accepted
  {
    EditsAreSends(m, changes);
    var j :| 0 <= j < |changes| && changes[j] == c;
    var edits := Edits(m, changes);
    SendsAreAnswered(s, edits);
    assert edits[j] in edits;
    AcceptedStays(Exec(s, edits), saves, EditOf(m, c).key);
  }

  lemma EditedCut(s: Store, m: Message, index: nat, k: nat, split: Splitter)
    requires index < |m.parts| && Good(s, split) && k <= |PlanFor(s, Part(m, index)).ops|
    requires Normal(RowsOf(s.rows, Of(m.id)), m, index) && Find(RowsOf(s.rows, Of(m.id)), index).Some?
    ensures KeysCovered(Exec(s, PlanFor(s, Part(m, index)).ops[..k])) ==> Good(Exec(s, PlanFor(s, Part(m, index)).ops[..k]), split)
  {
    var rows := RowsOf(s.rows, Of(m.id));
    var changes, marked := Changes(rows, m, index), Marked(rows, m, index);
    var ops := PlanFor(s, Part(m, index)).ops;
    assert MessageOk(s, m.id, split);
    EditedPlan(s, m, index);
    EditsAreSends(m, changes);
    EditsAreSends(m, marked);
    SameNumber(rows, m, index);
    if k == |ops| {
      assert ops[..k] == ops;
      ChangesKeepGood(s, m, index, split);
    } else if 0 < k <= |changes| {
      assert ops[..k] == Edits(m, changes)[..k];
      ChangesAreSeparate(rows, m, index);
      assert changes[0] in changes;
      SentUncovers(s, m, changes, k);
    } else if k > |changes| {
      var t := k - |changes|;
      SavesPrefix(m, marked, t);
      assert ops[..k] == Edits(m, changes) + Saves(m, marked)[..t];
      ExecAppend(s, Edits(m, changes), Saves(m, marked[..t]));
      SavingUncovers(s, m, index, t);
    }
  }

  lemma SameNumber(rows: seq<Row>, m: Message, index: nat)
    requires index < |m.parts| && Distinct(rows) && Normal(rows, m, index)
    ensures |Changes(rows, m, index)| == |Marked(rows, m, index)|
  {
    ChangesAreSeparate(rows, m, index);
    MarkedSeparate(rows, m, index);
    ChangesAreMarked(rows, m, index);
    SameSize(Changes(rows, m, index), Marked(rows, m, index));
  }

  lemma {:induction false} SameSize(a: seq<Change>, b: seq<Change>)
    requires OneEach(a) && OneEach(b) && SameChanges(a, b)
    ensures |a| == |b|
  {
    Sizes(a);
    Sizes(b);
    assert (set c | c in a) == (set c | c in b);
  }

  lemma {:induction false} Sizes(a: seq<Change>)
    requires OneEach(a)
    ensures |set c | c in a| == |a|
  {
    if a != [] {
      var last := |a| - 1;
      Sizes(a[..last]);
      assert (set c | c in a) == (set c | c in a[..last]) + {a[last]};
      forall i | 0 <= i < last ensures a[i] != a[last] { assert a[i].row.part != a[last].row.part; }
    }
  }

  lemma AdditionCut(s: Store, m: Message, index: nat, k: nat, split: Splitter)
    requires index < |m.parts| && Good(s, split) && Faithful(m, split) && InTurn(s, m, index)
    requires Normal(RowsOf(s.rows, Of(m.id)), m, index) && Find(RowsOf(s.rows, Of(m.id)), index).None? && k <= 2
    ensures KeysCovered(Exec(s, Addition(m, index)[..k])) ==> Good(Exec(s, Addition(m, index)[..k]), split)
  {
    var addition := Addition(m, index);
    if k == 1 {
      var cut := Apply(s, addition[0]);
      assert addition[..1] == [addition[0]] && [addition[0]][1..] == [] && Exec(s, [addition[0]]) == Exec(cut, []);
      assert Original(Of(m.id), index) in cut.accepted && !Covered(RowsOf(cut.rows, Of(m.id)), Original(Of(m.id), index));
    } else if k == 2 {
      assert addition[..2] == addition;
      AdditionKeepsGood(s, m, index, split);
    }
  }

  /** Cut off among the tombstones it sends before failing. */
  lemma FailingCut(s: Store, m: Message, index: nat, k: nat, split: Splitter)
    requires index < |m.parts| && Good(s, split) && !Normal(RowsOf(s.rows, Of(m.id)), m, index)
    requires k <= |PlanFor(s, Part(m, index)).ops|
    ensures KeysCovered(Exec(s, PlanFor(s, Part(m, index)).ops[..k])) ==> Good(Exec(s, PlanFor(s, Part(m, index)).ops[..k]), split)
  {
    var rows := RowsOf(s.rows, Of(m.id));
    assert MessageOk(s, m.id, split);
    ScannedAll(rows, m);
    MineChanges(rows, m, index);
    if Settled(rows, m) {
      SettledPlan(rows, m, index);
    } else if k > 0 {
      var stale := StaleFor(rows, m, index);
      var told := if AllMine(stale) then stale else Mine(stale);
      EditsAreSends(m, Tombstones(told));
      TombstonesAre(told);
      StaleAre(rows, m);
      MineAre(stale);
      assert told[0] in told && Tombstones(told)[0].row in rows;
      SentUncovers(s, m, Tombstones(told), k);
    }
  }

  lemma PartCut(s: Store, m: Message, index: nat, k: nat, split: Splitter)
    requires index < |m.parts| && Good(s, split) && Faithful(m, split) && InTurn(s, m, index)
    requires k <= |PlanFor(s, Part(m, index)).ops|
    ensures KeysCovered(Exec(s, PlanFor(s, Part(m, index)).ops[..k])) ==> Good(Exec(s, PlanFor(s, Part(m, index)).ops[..k]), split)
  {
    var rows := RowsOf(s.rows, Of(m.id));
    if !Normal(rows, m, index) {
      FailingCut(s, m, index, k, split);
    } else if Find(rows, index).None? {
      GoodIsTied(s, split);
      JoinsInTurn(s, m, index);
      AdditionCut(s, m, index, k, split);
    } else {
      EditedCut(s, m, index, k, split);
    }
  }

  /** A notice sent and not yet stored. */
  lemma NoticeCut(s: Store, checkpoint: Checkpoint, k: nat, split: Splitter)
    requires Good(s, split) && k <= |PlanFor(s, Branch(checkpoint)).ops|
    ensures Good(Exec(s, PlanFor(s, Branch(checkpoint)).ops[..k]), split)
  {
    var ops := PlanFor(s, Branch(checkpoint)).ops;
    if k == |ops| {
      assert ops[..k] == ops;
      NoticeKeepsGood(s, checkpoint, split);
    } else if k == 1 {
      assert ops[..1] == [ops[0]] && [ops[0]][1..] == [];
      assert Exec(s, [ops[0]]) == Exec(Apply(s, ops[0]), []);
      NoticeSentKeepsGood(s, ops[0], split);
    }
  }

  lemma NoticeSentKeepsGood(s: Store, op: Op, split: Splitter)
    requires Good(s, split) && op.Send? && op.key.id.NoticeOf? && op.key.Original? && op.post.Notice?
    ensures Good(Apply(s, op), split)
  {
    var next := Apply(s, op);
    SendKeepsServed(s, op.key, op.post);
    forall message: nat ensures MessageOk(next, message, split) {
      assert MessageOk(s, message, split);
      forall r | r in RowsOf(next.rows, Of(message)) ensures RowTrue(next, message, r, split) {
        if op.key !in s.accepted { NewEventKeepsTruth(s, next, Sent(Some(op.key), Notice), message, r, split); }
      }
    }
    forall id: Id ensures Distinct(RowsOf(next.rows, id)) { assert Distinct(RowsOf(s.rows, id)); }
  }

  lemma EventCutKeepsGood(s: Store, past: seq<Event>, events: seq<Event>, k: nat, split: Splitter)
    requires ValidEvents(past) && ValidEvents(events) && events != [] && Ordered(past, events)
    requires Good(s, split) && AllDone(s, past) && AllFaithful(events, split) && k <= |PlanFor(s, events[0]).ops|
    ensures KeysCovered(Exec(s, PlanFor(s, events[0]).ops[..k])) ==> Good(Exec(s, PlanFor(s, events[0]).ops[..k]), split)
  {
    FirstInTurn(s, past, events);
    match events[0]
    case Branch(checkpoint) => NoticeCut(s, checkpoint, k, split);
    case Part(m, index) => PartCut(s, m, index, k, split);
  }

  /**
   A dispatch may be cut off anywhere, or fail, and be given up: if every request accepted by then
   has its row saved, the store is as good as before.
   */
  lemma {:induction false} GivenUpKeepsGood(s: Store, past: seq<Event>, events: seq<Event>, budget: nat, split: Splitter)
    requires ValidEvents(past) && ValidEvents(events) && Coherent(past + events) && Ordered(past, events)
    requires Good(s, split) && AllDone(s, past) && AllFaithful(events, split)
    ensures KeysCovered(Attempt(s, events, budget)) ==> Good(Attempt(s, events, budget), split)
    decreases |events|
  {
    hide PlanFor, Good, KeysCovered;
    if events != [] {
      var plan := PlanFor(s, events[0]);
      if budget < |plan.ops| {
        EventCutKeepsGood(s, past, events, budget, split);
      } else if !plan.ok {
        assert plan.ops[..|plan.ops|] == plan.ops;
        EventCutKeepsGood(s, past, events, |plan.ops|, split);
      } else {
        GoodIsWell(s, split);
        EventKeepsGood(s, past, events, split);
        EventMovesOn(s, past, events);
        OrderedRest(past, events);
        GivenUpKeepsGood(Exec(s, plan.ops), past + [events[0]], events[1..], budget - |plan.ops|, split);
      }
    }
  }

  lemma GoodIsWell(s: Store, split: Splitter)
    requires Good(s, split)
    ensures Well(s)
  {
  }

  // ---------------------------------------------------------------- runs

  /**
   A step of a room's life: the outbox ties the user's own Matrix message to its source message; a
   revision is dispatched, any number of times cut off anywhere and at last in full; or a revision
   is dispatched, cut off or fails, and is given up.
   */
  datatype Round =
    | Own(message: nat, text: Content, attachments: bool, mine: bool)
    | Revision(notice: Option<Checkpoint>, messages: seq<Message>, cuts: seq<nat>)
    | GivenUp(notice: Option<Checkpoint>, messages: seq<Message>, budget: nat)

  function After(s: Store, round: Round): Store
    requires !round.Own? ==> ValidEvents(Dispatched(round.notice, round.messages))
  {
    match round
    case Own(message, text, attachments, mine) => WithOwn(s, message, text, attachments, mine)
    case Revision(notice, messages, cuts) =>
      Deliver(Attempts(s, Dispatched(notice, messages), cuts), Dispatched(notice, messages)).store
    case GivenUp(notice, messages, budget) => Attempt(s, Dispatched(notice, messages), budget)
  }

  /**
   The framework inserts a row only where there is none. A revision retried to the end blocks no
   message; one that is given up leaves no request accepted whose row was not saved.
   */
  ghost predicate Completes(s: Store, round: Round, split: Splitter) {
    match round
    case Own(message, _, _, _) => RowsOf(s.rows, Of(message)) == []
    case Revision(notice, messages, _) =>
      ValidSnapshot(messages, split) && ValidEvents(Dispatched(notice, messages)) && Unblocked(s, messages)
    case GivenUp(notice, messages, budget) =>
      && ValidSnapshot(messages, split) && ValidEvents(Dispatched(notice, messages))
      && KeysCovered(Attempt(s, Dispatched(notice, messages), budget))
  }

  ghost predicate AllComplete(s: Store, rounds: seq<Round>, split: Splitter)
    decreases |rounds|
  {
    rounds == [] || (Completes(s, rounds[0], split) && AllComplete(After(s, rounds[0]), rounds[1..], split))
  }

  ghost function Live(s: Store, rounds: seq<Round>, split: Splitter): Store
    requires AllComplete(s, rounds, split)
    decreases |rounds|
  {
    if rounds == [] then s else Live(After(s, rounds[0]), rounds[1..], split)
  }

  lemma OwnKeepsMessages(s: Store, round: Round, message: nat, split: Splitter)
    requires Good(s, split) && round.Own? && Completes(s, round, split)
    ensures MessageOk(After(s, round), message, split)
  {
    var next := After(s, round);
    var sent := Sent(None, Typed(round.message, round.text));
    assert MessageOk(s, message, split);
    if message == round.message {
      var row := OwnRow(|s.timeline|, round.text, round.attachments, round.mine);
      assert RowsOf(next.rows, Of(message)) == [row];
      VisibleAfter(s.timeline, sent, row.event);
      assert Find([row], 0) == Some(row);
    } else {
      forall r | r in RowsOf(next.rows, Of(message)) ensures RowTrue(next, message, r, split) {
        NewEventKeepsTruth(s, next, sent, message, r, split);
      }
    }
  }

  lemma OwnKeepsGood(s: Store, round: Round, split: Splitter)
    requires Good(s, split) && round.Own? && Completes(s, round, split)
    ensures Good(After(s, round), split)
  {
    var next := After(s, round);
    forall message: nat ensures MessageOk(next, message, split) { OwnKeepsMessages(s, round, message, split); }
    forall k | k in next.accepted && k.id.Of? ensures Covered(RowsOf(next.rows, k.id), k) {
      assert Covered(RowsOf(s.rows, k.id), k);
    }
    forall id: Id ensures Distinct(RowsOf(next.rows, id)) { assert Distinct(RowsOf(s.rows, id)); }
  }

  lemma RoundKeepsGood(s: Store, round: Round, split: Splitter)
    requires Good(s, split) && Completes(s, round, split)
    ensures Good(After(s, round), split)
    ensures round.Revision? ==> forall m :: m in round.messages ==> Shows(After(s, round), m) || Kept(After(s, round), m)
  {
    match round
    case Own(_, _, _, _) => OwnKeepsGood(s, round, split);
    case Revision(notice, messages, cuts) =>
      DispatchedCoherent(notice, messages);
      ResumeEquivalence(s, Dispatched(notice, messages), cuts);
      DispatchConverges(s, notice, messages, split);
    case GivenUp(notice, messages, budget) =>
      EventsAre(messages);
      DispatchedCoherent(notice, messages);
      DispatchedOrdered(notice, messages);
      assert [] + Dispatched(notice, messages) == Dispatched(notice, messages);
      GivenUpKeepsGood(s, [], Dispatched(notice, messages), budget, split);
  }

  /**
   Over every life of a room in which each revision is retried to the end, or given up with no
   request accepted whose row was not saved, the store stays good, so each dispatch converges
   (RoundKeepsGood) and sends only what is new (PartKeepsGood).
   */
  lemma {:induction false} RunsStayGood(s: Store, rounds: seq<Round>, split: Splitter)
    requires Good(s, split) && AllComplete(s, rounds, split)
    ensures Good(Live(s, rounds, split), split)
    decreases |rounds|
  {
    if rounds != [] {
      RoundKeepsGood(s, rounds[0], split);
      RunsStayGood(After(s, rounds[0]), rounds[1..], split);
    }
  }

  lemma EmptyIsGood(split: Splitter)
    ensures Good(Empty(), split)
  {
  }

  /**
   Convergence over whole runs: whatever came before, a revision dispatched, after any cuts, to the
   end succeeds exactly when no message is blocked, and the room then shows it.
   */
  lemma RunsConverge(rounds: seq<Round>, notice: Option<Checkpoint>, messages: seq<Message>, cuts: seq<nat>, split: Splitter)
    requires AllComplete(Empty(), rounds, split) && ValidSnapshot(messages, split)
    ensures ValidEvents(Dispatched(notice, messages))
    ensures var s := Live(Empty(), rounds, split); var events := Dispatched(notice, messages);
      var outcome := Deliver(Attempts(s, events, cuts), events);
      && (outcome.ok <==> Unblocked(s, messages))
      && (Unblocked(s, messages) ==> forall m :: m in messages ==> Shows(outcome.store, m) || Kept(outcome.store, m))
  {
    hide Good;
    var s := Live(Empty(), rounds, split);
    EmptyIsGood(split);
    RunsStayGood(Empty(), rounds, split);
    GoodIsWell(s, split);
    DispatchedCoherent(notice, messages);
    ResumeEquivalence(s, Dispatched(notice, messages), cuts);
    DispatchConverges(s, notice, messages, split);
  }

  /**
   The blocked case: the user's own Matrix message, whose sender this bridge may not edit for,
   and a source that changed it. Every dispatch fails, however often it is retried.
   */
  lemma ForeignRowBlocks(split: Splitter, cuts: seq<nat>)
    requires split(Source(User, "b")) != []
    ensures var s := After(Empty(), Own(1, "a", false, false));
      var m := Message(1, Source(User, "b"), split(Source(User, "b")));
      && Good(s, split) && ValidSnapshot([m], split) && Blocked(s, m)
      && ValidEvents(Dispatched(None, [m])) && !Deliver(Attempts(s, Dispatched(None, [m]), cuts), Dispatched(None, [m])).ok
  {
    var own := Own(1, "a", false, false);
    var s := After(Empty(), own);
    var m := Message(1, Source(User, "b"), split(Source(User, "b")));
    EmptyIsGood(split);
    OwnKeepsGood(Empty(), own, split);
    var row := OwnRow(0, "a", false, false);
    assert RowsOf(s.rows, Of(1)) == [row];
    assert "a" != "b";
    assert row in RowsOf(s.rows, Of(1)) && Blocks(row, m);
    hide Good;
    GoodIsWell(s, split);
    DispatchedCoherent(None, [m]);
    ResumeEquivalence(s, Dispatched(None, [m]), cuts);
    DispatchConverges(s, None, [m], split);
    assert m in [m];
  }

  // ---------------------------------------------------------------- transactions

  /** Between rounds, the edits of one part are distinct transactions of strictly increasing generation. */
  lemma EditsNeverRepeat(rounds: seq<Round>, split: Splitter, i: nat, j: nat)
    requires AllComplete(Empty(), rounds, split)
    requires var timeline := Live(Empty(), rounds, split).timeline;
      && i < j < |timeline| && timeline[i].key.Some? && timeline[j].key.Some?
      && SamePart(timeline[i].key.value, timeline[j].key.value)
    ensures var timeline := Live(Empty(), rounds, split).timeline;
      timeline[i].key.value.generation < timeline[j].key.value.generation
  {
    EmptyIsGood(split);
    RunsStayGood(Empty(), rounds, split);
  }
}
