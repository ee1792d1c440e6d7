/**
 What the events of a dispatch do to a room: how rows are tied to the events they name, what one
 edit, all the edits of an event and an addition change, and which events a snapshot calls for.
 */
module MirrorEvents {
  import opened Mirror
  import opened MirrorResume

  // ---------------------------------------------------------------- rooms and their rows

  function Empty(): Store { Store(map[], map[], []) }

  /** The row of one of the user's own Matrix messages. */
  function OwnRow(event: nat, text: Content, attachments: bool, mine: bool): Row {
    Row(0, event, mine, Metadata(Source(User, text), None, 0, 0, attachments))
  }

  /** The outbox ties the user's own Matrix message, now in the room, to its source message. */
  function WithOwn(s: Store, message: nat, text: Content, attachments: bool, mine: bool): Store {
    s.(timeline := s.timeline + [Sent(None, Typed(message, text))],
       rows := s.rows[Of(message) := RowsOf(s.rows, Of(message)) + [OwnRow(|s.timeline|, text, attachments, mine)]])
  }

  /** The homeserver made one event per accepted transaction and remembers which. */
  ghost predicate Served(s: Store) {
    && (forall k :: k in s.accepted ==> s.accepted[k] < |s.timeline| && s.timeline[s.accepted[k]].key == Some(k))
    && (forall i :: 0 <= i < |s.timeline| && s.timeline[i].key.Some? ==>
          s.timeline[i].key.value in s.accepted && s.accepted[s.timeline[i].key.value] == i)
  }

  predicate IsTyped(s: Store, row: Row) {
    row.event < |s.timeline| && s.timeline[row.event].post.Typed?
  }

  /** The event of a row belongs to that row alone. */
  predicate Owned(s: Store, message: nat, row: Row) {
    && row.event < |s.timeline|
    && if IsTyped(s, row) then s.timeline[row.event].post.message == message && row.part == 0 && s.timeline[row.event].key == None
       else s.timeline[row.event].key == Some(Original(Of(message), row.part)) && s.timeline[row.event].post.New?
  }

  /** A row holding a whole user message. */
  predicate Whole(row: Row) {
    row.meta.attachments || (row.meta.hash.role.User? && row.part == 0 && row.meta.count == 0)
  }

  /** Rows begin with part 0, and a whole message has no other part. */
  predicate Shaped(rows: seq<Row>) {
    && Distinct(rows)
    && (rows != [] ==> Find(rows, 0).Some?)
    && (|rows| > 1 ==> forall r :: r in rows ==> !Whole(r))
  }

  /** Every part shows its content, and every part past the last shows the tombstone. */
  predicate Shows(s: Store, m: Message) {
    var rows := RowsOf(s.rows, Of(m.id));
    && (forall i :: 0 <= i < |m.parts| ==>
          Find(rows, i).Some? && Visible(s.timeline, Find(rows, i).value.event) == Some(m.parts[i]))
    && (forall r :: r in rows && r.part >= |m.parts| ==> Visible(s.timeline, r.event) == Some(TOMBSTONE))
  }

  /** The message is the user's own Matrix message, left as it was typed. */
  predicate Kept(s: Store, m: Message) {
    var rows := RowsOf(s.rows, Of(m.id));
    && |rows| == 1 && IsTyped(s, rows[0])
    && (rows[0].meta.attachments || (rows[0].meta.hash == m.source && Visible(s.timeline, rows[0].event) == Some(m.source.body)))
  }

  lemma VisibleAfter(timeline: seq<Sent>, sent: Sent, event: nat)
    ensures Visible(timeline + [sent], event) ==
      match sent.post {
        case New(content) => if |timeline| == event then Some(content) else Visible(timeline, event)
        case Typed(_, content) => if |timeline| == event then Some(content) else Visible(timeline, event)
        case Replace(target, content) => if target == event then Some(content) else Visible(timeline, event)
        case Notice => Visible(timeline, event)
      }
  {
    assert (timeline + [sent])[..|timeline|] == timeline;
  }

  lemma SendKeepsServed(s: Store, key: Key, post: Post)
    requires Served(s)
    ensures Served(Apply(s, Send(key, post)))
  {
  }

  /** Two rows with the same event are the same row. */
  lemma OwnerOf(s: Store, a: nat, r: Row, b: nat, q: Row)
    requires Owned(s, a, r) && Owned(s, b, q) && r.event == q.event
    ensures a == b && r.part == q.part
  {
  }

  // ---------------------------------------------------------------- the edits of an event

  function Edited(s: Store, m: Message, c: Change): Store {
    Apply(Apply(s, EditOf(m, c)), SaveOf(m, c))
  }

  lemma EditedRows(s: Store, m: Message, c: Change)
    ensures RowsOf(Edited(s, m, c).rows, Of(m.id)) == SetMeta(RowsOf(s.rows, Of(m.id)), c.row.part, EditedMeta(m, c))
    ensures forall id :: id != Of(m.id) ==> RowsOf(Edited(s, m, c).rows, id) == RowsOf(s.rows, id)
  {
  }

  lemma EditKeepsShape(rows: seq<Row>, m: Message, c: Change)
    requires Shaped(rows) && c.row in rows && |m.parts| > 0
    ensures Shaped(SetMeta(rows, c.row.part, EditedMeta(m, c)))
  {
    var saved := SetMeta(rows, c.row.part, EditedMeta(m, c));
    SetMetaAt(rows, c.row.part, EditedMeta(m, c));
    FindAfterSet(rows, c.row.part, EditedMeta(m, c), 0);
    forall r | r in saved && |saved| > 1 ensures !Whole(r) {
      var k :| 0 <= k < |saved| && saved[k] == r;
      assert !Whole(rows[k]);
    }
  }

  /** The edits one at a time, each with its row update. */
  function OneByOne(s: Store, m: Message, changes: seq<Change>): Store
    decreases |changes|
  {
    if changes == [] then s else OneByOne(Edited(s, m, changes[0]), m, changes[1..])
  }

  lemma {:induction false} SaveCommutes(s: Store, save: Op, sends: seq<Op>)
    requires save.Save? && OnlySends(sends)
    ensures Apply(Exec(s, sends), save) == Exec(Apply(s, save), sends)
    decreases |sends|
  {
    if sends != [] {
      assert Apply(Apply(s, sends[0]), save) == Apply(Apply(s, save), sends[0]);
      SaveCommutes(Apply(s, sends[0]), save, sends[1..]);
    }
  }

  /** Sending every edit and then saving every row comes to the same as one edit at a time. */
  lemma {:induction false} EditsOneByOne(s: Store, m: Message, changes: seq<Change>)
    ensures Exec(s, Edits(m, changes) + Saves(m, changes)) == OneByOne(s, m, changes)
    decreases |changes|
  {
    if changes != [] {
      var c := changes[0];
      var rest := changes[1..];
      var sent := Apply(s, EditOf(m, c));
      EditsAreSends(m, rest);
      ExecAppend(s, Edits(m, changes), Saves(m, changes));
      SaveCommutes(sent, SaveOf(m, c), Edits(m, rest));
      ExecAppend(Edited(s, m, c), Edits(m, rest), Saves(m, rest));
      EditsOneByOne(Edited(s, m, c), m, rest);
    }
  }

  /** Changes to distinct rows of a message. */
  predicate Separate(rows: seq<Row>, changes: seq<Change>) {
    && (forall c :: c in changes ==> c.row in rows)
    && (forall i, j :: 0 <= i < j < |changes| ==> changes[i].row.part != changes[j].row.part)
  }

  lemma SeparateRest(rows: seq<Row>, m: Message, changes: seq<Change>)
    requires changes != [] && Separate(rows, changes)
    ensures Separate(SetMeta(rows, changes[0].row.part, EditedMeta(m, changes[0])), changes[1..])
  {
    var saved := SetMeta(rows, changes[0].row.part, EditedMeta(m, changes[0]));
    SetMetaAt(rows, changes[0].row.part, EditedMeta(m, changes[0]));
    forall c | c in changes[1..] ensures c.row in saved {
      var j :| 0 <= j < |changes[1..]| && changes[1..][j] == c;
      assert changes[j + 1] == c && changes[0].row.part != c.row.part;
      var k :| 0 <= k < |rows| && rows[k] == c.row;
      assert saved[k] == c.row;
    }
    assert forall i, j :: 0 <= i < j < |changes[1..]| ==> changes[1..][i] == changes[i + 1] && changes[1..][j] == changes[j + 1];
  }

  /** A row after the changes: its own change's metadata, if it has one. */
  predicate RowAfter(m: Message, changes: seq<Change>, row: Row, after: Row) {
    if exists c :: c in changes && c.row.part == row.part
    then exists c :: c in changes && c.row.part == row.part && after == row.(meta := EditedMeta(m, c))
    else after == row
  }

  predicate OneEach(changes: seq<Change>) {
    forall i, j :: 0 <= i < j < |changes| ==> changes[i].row.part != changes[j].row.part
  }

  /** Saving changes to distinct parts touches each row once, in whatever order. */
  lemma {:induction false} SavesAt(s: Store, m: Message, changes: seq<Change>)
    requires OneEach(changes)
    ensures var rows := RowsOf(s.rows, Of(m.id)); var after := Exec(s, Saves(m, changes)); var saved := RowsOf(after.rows, Of(m.id));
      && |saved| == |rows| && (forall k :: 0 <= k < |rows| ==> RowAfter(m, changes, rows[k], saved[k]))
      && after == s.(rows := after.rows)
      && after.rows == (if changes == [] then s.rows else s.rows[Of(m.id) := saved])
    decreases |changes|
  {
    if changes != [] {
      var rows := RowsOf(s.rows, Of(m.id));
      var c := changes[0];
      var next := Apply(s, SaveOf(m, c));
      var middle := RowsOf(next.rows, Of(m.id));
      SetMetaAt(rows, c.row.part, EditedMeta(m, c));
      SavesAt(next, m, changes[1..]);
      var saved := RowsOf(Exec(next, Saves(m, changes[1..])).rows, Of(m.id));
      forall k | 0 <= k < |rows| ensures RowAfter(m, changes, rows[k], saved[k]) {
        assert RowAfter(m, changes[1..], middle[k], saved[k]);
        RowAfterFirst(m, changes, rows[k], saved[k]);
      }
    }
  }

  lemma RowAfterFirst(m: Message, changes: seq<Change>, row: Row, after: Row)
    requires changes != [] && OneEach(changes)
    requires RowAfter(m, changes[1..], if row.part == changes[0].row.part then row.(meta := EditedMeta(m, changes[0])) else row, after)
    ensures RowAfter(m, changes, row, after)
  {
    if row.part == changes[0].row.part {
      forall d | d in changes[1..] ensures d.row.part != row.part {
        var j :| 0 <= j < |changes[1..]| && changes[1..][j] == d;
        assert changes[j + 1] == d;
      }
      assert changes[0] in changes;
    } else if exists c :: c in changes[1..] && c.row.part == row.part {
      var c :| c in changes[1..] && c.row.part == row.part && after == row.(meta := EditedMeta(m, c));
      assert c in changes;
    } else {
      forall c | c in changes ensures c.row.part != row.part { assert c == changes[0] || c in changes[1..]; }
    }
  }

  ghost predicate SameChanges(a: seq<Change>, b: seq<Change>) {
    forall c :: c in a <==> c in b
  }

  lemma SameRowAfter(m: Message, a: seq<Change>, b: seq<Change>, row: Row, x: Row, y: Row)
    requires SameChanges(a, b) && OneEach(a) && RowAfter(m, a, row, x) && RowAfter(m, b, row, y)
    ensures x == y
  {
    if exists c :: c in a && c.row.part == row.part {
      var c :| c in a && c.row.part == row.part && x == row.(meta := EditedMeta(m, c));
      assert c in b;
      var d :| d in b && d.row.part == row.part && y == row.(meta := EditedMeta(m, d));
      assert d in a;
      var i :| 0 <= i < |a| && a[i] == c;
      var j :| 0 <= j < |a| && a[j] == d;
      assert i == j;
    } else {
      forall c | c in b ensures c.row.part != row.part { assert c in a; }
    }
  }

  /** The order in which rows are saved does not matter. */
  lemma SavesInAnyOrder(s: Store, m: Message, a: seq<Change>, b: seq<Change>)
    requires SameChanges(a, b) && OneEach(a) && OneEach(b)
    ensures Exec(s, Saves(m, a)) == Exec(s, Saves(m, b))
  {
    var rows := RowsOf(s.rows, Of(m.id));
    SavesAt(s, m, a);
    SavesAt(s, m, b);
    var x := RowsOf(Exec(s, Saves(m, a)).rows, Of(m.id));
    var y := RowsOf(Exec(s, Saves(m, b)).rows, Of(m.id));
    forall k | 0 <= k < |rows| ensures x[k] == y[k] { SameRowAfter(m, a, b, rows[k], x[k], y[k]); }
    assert x == y;
    if a != [] { assert a[0] in b; }
    if b != [] { assert b[0] in a; }
  }

  lemma {:induction false} MarkedSeparate(rows: seq<Row>, m: Message, index: nat)
    requires index < |m.parts| && Distinct(rows)
    ensures Separate(rows, Marked(rows, m, index))
  {
    MarkedAre(rows, m, index);
    if rows != [] {
      var rest := Marked(rows[1..], m, index);
      assert Distinct(rows[1..]);
      MarkedSeparate(rows[1..], m, index);
      MarkedAre(rows[1..], m, index);
      forall i | 0 <= i < |rest| ensures rest[i].row.part != rows[0].part {
        assert rest[i] in rest && rest[i].row in rows[1..];
      }
    }
  }

  lemma {:induction false} StaleDistinct(rows: seq<Row>, m: Message)
    requires Distinct(rows)
    ensures Distinct(Stale(rows, m))
  {
    if rows != [] {
      assert Distinct(rows[1..]);
      StaleDistinct(rows[1..], m);
      StaleAre(rows[1..], m);
      forall r | r in Stale(rows[1..], m) ensures r.part != rows[0].part {
        assert r in rows[1..];
      }
    }
  }

  lemma StaleAreSeparate(rows: seq<Row>, m: Message)
    requires Distinct(rows)
    ensures Separate(rows, Tombstones(Stale(rows, m)))
    ensures forall c :: c in Tombstones(Stale(rows, m)) ==> c.row.part >= |m.parts|
  {
    StaleAre(rows, m);
    StaleDistinct(rows, m);
    TombstonesAre(Stale(rows, m));
    forall c | c in Tombstones(Stale(rows, m)) ensures c.row in rows && c.row.part >= |m.parts| {
      var k :| 0 <= k < |Stale(rows, m)| && Tombstones(Stale(rows, m))[k] == c;
      assert Stale(rows, m)[k] in Stale(rows, m);
    }
  }

  lemma SeparateAndOne(rows: seq<Row>, changes: seq<Change>, c: Change)
    requires Separate(rows, changes) && c.row in rows && forall d :: d in changes ==> d.row.part != c.row.part
    ensures Separate(rows, changes + [c])
  {
  }

  lemma ChangesAreSeparate(rows: seq<Row>, m: Message, index: nat)
    requires index < |m.parts| && Distinct(rows) && Normal(rows, m, index)
    ensures Separate(rows, Changes(rows, m, index))
  {
    var tombstones := Tombstones(StaleFor(rows, m, index));
    var outdated := Outdated(rows, m, index);
    ScannedAll(rows, m);
    StaleAreSeparate(rows, m);
    if outdated == [] {
      assert tombstones + [] == tombstones;
    } else {
      FindIs(rows, index);
      SeparateAndOne(rows, tombstones, outdated[0]);
    }
  }

  /** The edits of an event, sent stale parts first and saved in row order, come to one edit at a time. */
  lemma EventEdits(s: Store, m: Message, index: nat)
    requires index < |m.parts|
    requires var rows := RowsOf(s.rows, Of(m.id)); Distinct(rows) && Normal(rows, m, index)
    ensures var rows := RowsOf(s.rows, Of(m.id)); var changes := Changes(rows, m, index);
      && Separate(rows, changes)
      && Exec(s, Edits(m, changes) + Saves(m, Marked(rows, m, index))) == OneByOne(s, m, changes)
  {
    var rows := RowsOf(s.rows, Of(m.id));
    var changes := Changes(rows, m, index);
    var marked := Marked(rows, m, index);
    ChangesAreMarked(rows, m, index);
    ChangesAreSeparate(rows, m, index);
    MarkedSeparate(rows, m, index);
    ExecAppend(s, Edits(m, changes), Saves(m, changes));
    ExecAppend(s, Edits(m, changes), Saves(m, marked));
    SavesInAnyOrder(Exec(s, Edits(m, changes)), m, changes, marked);
    EditsOneByOne(s, m, changes);
  }

  // ---------------------------------------------------------------- additions and notices

  function Added(s: Store, m: Message, index: nat): Store
    requires index < |m.parts|
  {
    Exec(s, Addition(m, index))
  }

  /** A part may join the rows: the first part first, and no part beside a whole message. */
  predicate MayJoin(rows: seq<Row>, m: Message, index: nat)
    requires index < |m.parts|
  {
    if rows == [] then index == 0 else |m.parts| > 1 && forall r :: r in rows ==> !Whole(r)
  }

  lemma AddKeepsShape(rows: seq<Row>, m: Message, index: nat, event: nat)
    requires index < |m.parts| && Shaped(rows) && Find(rows, index).None? && MayJoin(rows, m, index)
    ensures Shaped(rows + [Row(index, event, true, NewMeta(m, index))])
  {
    FindIs(rows, index);
    FindAfterAdd(rows, Row(index, event, true, NewMeta(m, index)), 0);
    if rows == [] { assert rows + [Row(index, event, true, NewMeta(m, index))] == [Row(index, event, true, NewMeta(m, index))]; }
  }

  /** A part's event after its addition, whatever happened before. */
  lemma AddedEvent(s: Store, m: Message, index: nat)
    requires index < |m.parts|
    ensures var key := Original(Of(m.id), index); var next := Added(s, m, index);
      && key in next.accepted
      && next.rows == s.rows[Of(m.id) := RowsOf(s.rows, Of(m.id)) + [Row(index, next.accepted[key], true, NewMeta(m, index))]]
      && (if key in s.accepted then next.timeline == s.timeline && next.accepted == s.accepted
          else next.timeline == s.timeline + [Sent(Some(key), New(m.parts[index]))] && next.accepted[key] == |s.timeline|)
  {
    var addition := Addition(m, index);
    var sent := Apply(s, addition[0]);
    assert addition[1..] == [addition[1]] && [addition[1]][1..] == [];
    assert Exec(sent, [addition[1]]) == Exec(Apply(sent, addition[1]), []);
  }

  /**
   What is stored of a new part: its source, its content if it is the assistant's, how many parts
   there are if there are several, and that nothing has been edited yet.
   */
  lemma AddedRecords(s: Store, m: Message, index: nat)
    requires index < |m.parts|
    ensures var rows := RowsOf(Added(s, m, index).rows, Of(m.id)); var k := |RowsOf(s.rows, Of(m.id))|;
      && |rows| == k + 1 && rows[..k] == RowsOf(s.rows, Of(m.id))
      && rows[k].part == index && rows[k].mine && rows[k].meta.hash == m.source
      && (m.source == Source(User, m.source.body) ==> rows[k].meta.shown == None)
      && (m.source == Source(Assistant, m.source.body) ==> rows[k].meta.shown == Some(m.parts[index]))
      && (|m.parts| > 1 ==> rows[k].meta.count == |m.parts|) && (|m.parts| == 1 ==> rows[k].meta.count == 0)
      && rows[k].meta.generation == 0 && !rows[k].meta.attachments
  {
    AddedEvent(s, m, index);
  }

  lemma EmptyPlan(s: Store, m: Message)
    requires RowsOf(s.rows, Of(m.id)) == [] && |m.parts| > 0
    ensures PlanFor(s, Part(m, 0)) == Plan(Addition(m, 0), true)
  {
    assert Scanned([], m) == [] && Changes([], m, 0) == [] && Marked([], m, 0) == [];
  }

  lemma NoticeIs(s: Store, checkpoint: Checkpoint)
    requires RowsOf(s.rows, NoticeOf(checkpoint)) == []
    ensures var key := Original(NoticeOf(checkpoint), 0); var next := Exec(s, PlanFor(s, Branch(checkpoint)).ops);
      && (if key in s.accepted then next.timeline == s.timeline && next.accepted == s.accepted
          else next.timeline == s.timeline + [Sent(Some(key), Notice)] && next.accepted == s.accepted[key := |s.timeline|])
      && (forall id: Id :: id != NoticeOf(checkpoint) ==> RowsOf(next.rows, id) == RowsOf(s.rows, id))
      && next == Apply(Apply(s, PlanFor(s, Branch(checkpoint)).ops[0]), PlanFor(s, Branch(checkpoint)).ops[1])
  {
    var ops := PlanFor(s, Branch(checkpoint)).ops;
    assert ops[1..] == [ops[1]] && [ops[1]][1..] == [];
    assert Exec(Apply(s, ops[0]), [ops[1]]) == Exec(Apply(Apply(s, ops[0]), ops[1]), []);
  }

  /** Nothing of a message with a settling row is touched. */
  lemma SettledPlan(rows: seq<Row>, m: Message, index: nat)
    requires index < |m.parts| && Shaped(rows) && exists r :: r in rows && Settling(r, m)
    ensures Reconcile(rows, m, index) == Plan([], true)
    ensures exists r :: rows == [r] && Settling(r, m)
  {
    var r :| r in rows && Settling(r, m);
    assert Whole(r);
    assert rows == [r];
    ScannedAll(rows, m);
    assert Scanned(rows, m) == [];
  }

  // ---------------------------------------------------------------- transactions

  lemma {:induction false} OpsKeepServed(s: Store, ops: seq<Op>)
    requires Served(s)
    ensures Served(Exec(s, ops)) && |s.timeline| <= |Exec(s, ops).timeline|
    decreases |ops|
  {
    if ops != [] {
      if ops[0].Send? { SendKeepsServed(s, ops[0].key, ops[0].post); }
      OpsKeepServed(Apply(s, ops[0]), ops[1..]);
    }
  }

  /**
   However a dispatch is cut off, each transaction makes at most one event: there is never a
   second original of a part nor a second copy of an edit.
   */
  lemma {:induction false} OneEventPerTransaction(s: Store, events: seq<Event>, budget: nat)
    requires ValidEvents(events) && Served(s)
    ensures Served(Attempt(s, events, budget))
    ensures var timeline := Attempt(s, events, budget).timeline;
      forall i, j :: 0 <= i < j < |timeline| && timeline[i].key.Some? ==> timeline[i].key != timeline[j].key
    decreases |events|
  {
    if events != [] {
      var plan := PlanFor(s, events[0]);
      OpsKeepServed(s, plan.ops);
      if budget < |plan.ops| {
        OpsKeepServed(s, plan.ops[..budget]);
      } else if plan.ok {
        OneEventPerTransaction(Exec(s, plan.ops), events[1..], budget - |plan.ops|);
      }
    }
  }

  /**
   A transaction does not mention content that was not committed: adding a part shows its content
   exactly when its transaction is new, or was accepted for an event that shows that content.
   */
  lemma AddedShowsExactly(s: Store, m: Message, index: nat)
    requires index < |m.parts| && Find(RowsOf(s.rows, Of(m.id)), index).None?
    ensures var key := Original(Of(m.id), index); var next := Added(s, m, index);
      var row := Find(RowsOf(next.rows, Of(m.id)), index);
      row.Some? && (Visible(next.timeline, row.value.event) == Some(m.parts[index]) <==>
        key !in s.accepted || Visible(s.timeline, s.accepted[key]) == Some(m.parts[index]))
  {
    var key := Original(Of(m.id), index);
    var next := Added(s, m, index);
    AddedEvent(s, m, index);
    FindAfterAdd(RowsOf(s.rows, Of(m.id)), Row(index, next.accepted[key], true, NewMeta(m, index)), index);
    VisibleAfter(s.timeline, Sent(Some(key), New(m.parts[index])), |s.timeline|);
  }

  /** An edit's row shows the content exactly when the edit's transaction is new, or its event already shows it. */
  lemma EditedShowsExactly(s: Store, m: Message, c: Change)
    requires c.row.event < |s.timeline|
    ensures var next := Edited(s, m, c);
      Visible(next.timeline, c.row.event) == Some(c.content) <==>
        EditOf(m, c).key !in s.accepted || Visible(s.timeline, c.row.event) == Some(c.content)
    ensures forall event: nat :: event < |s.timeline| && event != c.row.event ==>
      Visible(Edited(s, m, c).timeline, event) == Visible(s.timeline, event)
  {
    var sent := Sent(Some(EditOf(m, c).key), EditOf(m, c).post);
    VisibleAfter(s.timeline, sent, c.row.event);
    forall event: nat | event < |s.timeline| && event != c.row.event
      ensures Visible(Edited(s, m, c).timeline, event) == Visible(s.timeline, event)
    {
      VisibleAfter(s.timeline, sent, event);
    }
  }

  // ---------------------------------------------------------------- the events of a snapshot

  /** A part handled in its turn: part 0 before the others. */
  predicate InTurn(s: Store, m: Message, index: nat)
    requires index < |m.parts|
  {
    index > 0 ==> Done(s, Part(m, 0))
  }

  /** The events of a message: its parts in order (events.go). */
  function PartsFrom(m: Message, index: nat): seq<Event>
    requires index <= |m.parts|
    decreases |m.parts| - index
  {
    if index == |m.parts| then [] else [Part(m, index)] + PartsFrom(m, index + 1)
  }

  function EventsOf(messages: seq<Message>): seq<Event> {
    if messages == [] then [] else PartsFrom(messages[0], 0) + EventsOf(messages[1..])
  }

  /** Part 0 of a message comes before its other parts. */
  predicate Ordered(past: seq<Event>, events: seq<Event>) {
    forall k :: 0 <= k < |events| && events[k].Part? && events[k].index > 0 ==> Part(events[k].message, 0) in past + events[..k]
  }

  lemma OrderedRest(past: seq<Event>, events: seq<Event>)
    requires events != [] && Ordered(past, events)
    ensures Ordered(past + [events[0]], events[1..])
  {
    forall k | 0 <= k < |events[1..]| && events[1..][k].Part? && events[1..][k].index > 0
      ensures Part(events[1..][k].message, 0) in (past + [events[0]]) + events[1..][..k]
    {
      assert events[k + 1] == events[1..][k];
      assert (past + [events[0]]) + events[1..][..k] == past + events[..k + 1];
    }
  }

  predicate DistinctIds(messages: seq<Message>) {
    forall i, j :: 0 <= i < j < |messages| ==> messages[i].id != messages[j].id
  }

  lemma {:induction false} PartsAre(m: Message, index: nat)
    requires index <= |m.parts|
    ensures |PartsFrom(m, index)| == |m.parts| - index
    ensures forall k :: 0 <= k < |PartsFrom(m, index)| ==> PartsFrom(m, index)[k] == Part(m, index + k)
    decreases |m.parts| - index
  {
    if index < |m.parts| { PartsAre(m, index + 1); }
  }

  lemma {:induction false} EventsAre(messages: seq<Message>)
    ensures forall e :: e in EventsOf(messages) ==> e.Part? && e.message in messages && e.index < |e.message.parts|
    ensures forall m, i: nat :: m in messages && i < |m.parts| ==> Part(m, i) in EventsOf(messages)
  {
    if messages != [] {
      PartsAre(messages[0], 0);
      EventsAre(messages[1..]);
      forall m, i: nat | m in messages && i < |m.parts| ensures Part(m, i) in EventsOf(messages) {
        if m == messages[0] { assert PartsFrom(m, 0)[i] == Part(m, i); } else { assert m in messages[1..]; }
      }
    }
  }

  predicate NoRepeats(events: seq<Event>) {
    forall i, j :: 0 <= i < j < |events| ==> events[i] != events[j]
  }

  lemma {:induction false} EventsDiffer(messages: seq<Message>)
    requires DistinctIds(messages)
    ensures NoRepeats(EventsOf(messages))
  {
    if messages != [] {
      PartsAre(messages[0], 0);
      EventsAre(messages[1..]);
      EventsDiffer(messages[1..]);
      forall e | e in EventsOf(messages[1..]) ensures e.Part? && e.message != messages[0] {
        var k :| 0 <= k < |messages[1..]| && messages[1..][k] == e.message;
        assert messages[k + 1] == e.message;
      }
    }
  }

  /** What dispatch makes of a snapshot: a branch notice if the branch changed, then every part in order. */
  function Dispatched(notice: Option<Checkpoint>, messages: seq<Message>): seq<Event> {
    (if notice.Some? then [Branch(notice.value)] else []) + EventsOf(messages)
  }

  lemma DispatchedCoherent(notice: Option<Checkpoint>, messages: seq<Message>)
    requires DistinctIds(messages)
    ensures ValidEvents(Dispatched(notice, messages)) && Coherent(Dispatched(notice, messages))
  {
    EventsAre(messages);
    EventsDiffer(messages);
    var events := Dispatched(notice, messages);
    forall i, j | 0 <= i < |events| && 0 <= j < |events| && i != j ensures Compatible(events[i], events[j]) {
      if events[i].Part? && events[j].Part? && events[i].message.id == events[j].message.id {
        SameMessage(messages, events[i].message, events[j].message);
      }
    }
  }

  lemma SameMessage(messages: seq<Message>, m: Message, n: Message)
    requires DistinctIds(messages) && m in messages && n in messages && m.id == n.id
    ensures m == n
  {
    var i :| 0 <= i < |messages| && messages[i] == m;
    var j :| 0 <= j < |messages| && messages[j] == n;
    assert i == j;
  }

  lemma {:induction false} EventsOrdered(past: seq<Event>, messages: seq<Message>)
    ensures Ordered(past, EventsOf(messages))
    decreases |messages|
  {
    if messages != [] {
      var first := PartsFrom(messages[0], 0);
      PartsAre(messages[0], 0);
      EventsOrdered(past + first, messages[1..]);
      var events := EventsOf(messages);
      forall k | 0 <= k < |events| && events[k].Part? && events[k].index > 0
        ensures Part(events[k].message, 0) in past + events[..k]
      {
        if k < |first| {
          assert events[..k][0] == Part(messages[0], 0);
        } else {
          assert events[k] == EventsOf(messages[1..])[k - |first|];
          assert past + events[..k] == (past + first) + EventsOf(messages[1..])[..k - |first|];
        }
      }
    }
  }

  lemma DispatchedOrdered(notice: Option<Checkpoint>, messages: seq<Message>)
    ensures Ordered([], Dispatched(notice, messages))
  {
    var events := Dispatched(notice, messages);
    if notice.Some? {
      EventsOrdered([events[0]], messages);
      forall k | 0 <= k < |events| && events[k].Part? && events[k].index > 0
        ensures Part(events[k].message, 0) in [] + events[..k]
      {
        assert events[k] == EventsOf(messages)[k - 1];
        assert [] + events[..k] == [events[0]] + EventsOf(messages)[..k - 1];
      }
    } else {
      EventsOrdered([], messages);
      assert events == EventsOf(messages);
    }
  }
}
