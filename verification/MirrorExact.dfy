/**
 What a dispatch with edits on comes to from any store a room's life can lead to, however many revisions were
 cut off and given up on the way: exactly when it succeeds, and exactly what it then shows.
 */
module MirrorExact {
  import opened Mirror
  import opened MirrorResume
  import opened MirrorEvents

  // ---------------------------------------------------------------- what holds whatever happens

  /** Only a whole message of the user's own holds attachments. */
  predicate HoldsOwn(row: Row) {
    row.meta.attachments ==> row.part == 0 && row.meta.count == 0 && row.meta.hash.role.User?
  }

  ghost predicate RowsTied(s: Store, message: nat) {
    var rows := RowsOf(s.rows, Of(message));
    Shaped(rows) && forall r :: r in rows ==> Owned(s, message, r) && HoldsOwn(r)
  }

  /** Every part's transaction made an event that posts it. */
  ghost predicate Posted(s: Store) {
    forall k :: k in s.accepted && k.Original? && k.id.Of? ==>
      s.accepted[k] < |s.timeline| && s.timeline[s.accepted[k]].post.New?
  }

  /** Rows are distinct, begin with part 0, and name events of their own. */
  ghost predicate Tied(s: Store) {
    Well(s) && Served(s) && Posted(s) && forall message: nat :: RowsTied(s, message)
  }

  /** Metadata of a row that holds one part, not a whole message. */
  predicate HoldsPart(meta: Metadata) {
    !meta.attachments && (meta.count > 0 || meta.hash.role.Assistant?)
  }

  /** An operation a part's event may perform, short of inserting its row. */
  predicate Plain(m: Message, op: Op) {
    match op
    case Send(key, post) => key.Original? && key.id.Of? ==> post.New?
    case Save(id, _, meta) => id == Of(m.id) && HoldsPart(meta)
    case Insert(_, _, _, _) => false
  }

  lemma PlainKeepsTied(s: Store, m: Message, op: Op)
    requires Tied(s) && Plain(m, op)
    ensures Tied(Apply(s, op))
  {
    var next := Apply(s, op);
    match op
    case Send(key, post) =>
      SendKeepsServed(s, key, post);
      forall message: nat ensures RowsTied(next, message) {
        assert RowsTied(s, message);
        forall r | r in RowsOf(next.rows, Of(message)) ensures Owned(next, message, r) && HoldsOwn(r) { assert Owned(s, message, r); }
      }
    case Save(id, part, meta) =>
      var rows := RowsOf(s.rows, Of(m.id));
      SetMetaAt(rows, part, meta);
      assert forall other: Id :: other != id ==> RowsOf(next.rows, other) == RowsOf(s.rows, other);
      assert Distinct(rows) && RowsOf(next.rows, id) == SetMeta(rows, part, meta);
      forall message: nat ensures RowsTied(next, message) {
        assert RowsTied(s, message);
        if message == m.id { SaveKeepsRows(s, next, m, part, meta); }
      }
  }

  lemma SaveKeepsRows(s: Store, next: Store, m: Message, part: nat, meta: Metadata)
    requires RowsTied(s, m.id) && HoldsPart(meta)
    requires next.timeline == s.timeline && RowsOf(next.rows, Of(m.id)) == SetMeta(RowsOf(s.rows, Of(m.id)), part, meta)
    ensures RowsTied(next, m.id)
  {
    var rows := RowsOf(s.rows, Of(m.id));
    var saved := SetMeta(rows, part, meta);
    SetMetaAt(rows, part, meta);
    FindAfterSet(rows, part, meta, 0);
    forall r | r in saved ensures Owned(next, m.id, r) && HoldsOwn(r) && (|saved| > 1 ==> !Whole(r)) {
      var k :| 0 <= k < |saved| && saved[k] == r;
      assert rows[k] in rows && (|rows| > 1 ==> !Whole(rows[k]));
    }
  }

  predicate AllPlain(m: Message, ops: seq<Op>) {
    forall op :: op in ops ==> Plain(m, op)
  }

  lemma {:induction false} PlainsKeepTied(s: Store, m: Message, ops: seq<Op>)
    requires Tied(s) && AllPlain(m, ops)
    ensures Tied(Exec(s, ops))
    decreases |ops|
  {
    if ops != [] {
      PlainKeepsTied(s, m, ops[0]);
      PlainsKeepTied(Apply(s, ops[0]), m, ops[1..]);
    }
  }

  lemma TiedRows(s: Store, message: nat)
    requires Tied(s)
    ensures RowsTied(s, message) && Distinct(RowsOf(s.rows, Of(message))) && Shaped(RowsOf(s.rows, Of(message)))
  {
    assert RowsTied(s, message);
  }

  /** With part 0 of a split message in place, no row holds a whole message. */
  lemma FirstStands(s: Store, m: Message)
    requires Tied(s) && |m.parts| > 1 && Done(s, Part(m, 0))
    requires forall r :: r in RowsOf(s.rows, Of(m.id)) ==> !Settling(r, m)
    ensures RowsOf(s.rows, Of(m.id)) != [] && forall r :: r in RowsOf(s.rows, Of(m.id)) ==> !Whole(r)
  {
    var rows := RowsOf(s.rows, Of(m.id));
    assert RowsTied(s, m.id);
    DoneIsFinished(s, m, 0);
    FindIs(rows, 0);
    var first := Find(rows, 0).value;
    assert !Settling(first, m) && first.meta.count != 0;
    forall r | r in rows ensures !Whole(r) {
      if r.part == 0 { FindMember(rows, r); }
    }
  }

  lemma JoinsInTurn(s: Store, m: Message, index: nat)
    requires index < |m.parts| && Tied(s) && InTurn(s, m, index)
    requires Normal(RowsOf(s.rows, Of(m.id)), m, index) && Find(RowsOf(s.rows, Of(m.id)), index).None?
    ensures MayJoin(RowsOf(s.rows, Of(m.id)), m, index)
    ensures Changes(RowsOf(s.rows, Of(m.id)), m, index) == []
    ensures PlanFor(s, Part(m, index)) == Plan(Addition(m, index), true)
  {
    var rows := RowsOf(s.rows, Of(m.id));
    assert RowsTied(s, m.id);
    if index == 0 {
      assert rows == [];
      assert Scanned(rows, m) == [];
    } else {
      FirstStands(s, m);
    }
    NormalOps(s, m, index);
    NothingMarked(rows, m, index);
    assert Edits(m, []) + (Saves(m, []) + Addition(m, index)) == Addition(m, index);
  }

  lemma AddedIsTied(s: Store, m: Message, index: nat)
    requires index < |m.parts| && Tied(s) && Find(RowsOf(s.rows, Of(m.id)), index).None?
    requires MayJoin(RowsOf(s.rows, Of(m.id)), m, index)
    ensures Tied(Added(s, m, index))
  {
    var rows := RowsOf(s.rows, Of(m.id));
    var key := Original(Of(m.id), index);
    var sent := Apply(s, Addition(m, index)[0]);
    var next := Added(s, m, index);
    AddedEvent(s, m, index);
    PlainKeepsTied(s, m, Addition(m, index)[0]);
    var addition := Addition(m, index);
    assert addition[1..] == [addition[1]] && [addition[1]][1..] == [];
    assert next == Apply(sent, addition[1]) by { assert Exec(sent, [addition[1]]) == Exec(Apply(sent, addition[1]), []); }
    assert RowsTied(sent, m.id);
    FindIs(rows, index);
    AddKeepsShape(rows, m, index, next.accepted[key]);
    forall message: nat ensures RowsTied(next, message) {
      assert RowsTied(sent, message);
      forall r | r in RowsOf(next.rows, Of(message)) ensures Owned(next, message, r) && HoldsOwn(r) {
        if r in RowsOf(sent.rows, Of(message)) { assert Owned(sent, message, r); }
      }
    }
    forall id: Id ensures Distinct(RowsOf(next.rows, id)) { assert Distinct(RowsOf(s.rows, id)); }
  }

  lemma ChangesArePlain(m: Message, a: seq<Change>, b: seq<Change>)
    requires |m.parts| > 0
    ensures AllPlain(m, Edits(m, a) + Saves(m, b))
  {
    EditsAreSends(m, a);
    EditsAreSends(m, b);
    var ops := Edits(m, a) + Saves(m, b);
    forall op | op in ops ensures Plain(m, op) {
      var k :| 0 <= k < |ops| && ops[k] == op;
      assert op == if k < |a| then EditOf(m, a[k]) else SaveOf(m, b[k - |a|]);
    }
  }

  /** What the plan of a part's event can be. */
  lemma PlanShapes(s: Store, m: Message, index: nat)
    requires index < |m.parts| && Tied(s) && InTurn(s, m, index)
    ensures var rows := RowsOf(s.rows, Of(m.id)); var plan := PlanFor(s, Part(m, index));
      if Normal(rows, m, index) && Find(rows, index).None? then
        plan == Plan(Addition(m, index), true) && MayJoin(rows, m, index)
      else AllPlain(m, plan.ops)
  {
    var rows := RowsOf(s.rows, Of(m.id));
    assert RowsTied(s, m.id);
    if Normal(rows, m, index) {
      if Find(rows, index).None? {
        JoinsInTurn(s, m, index);
      } else {
        EditedPlan(s, m, index);
        ChangesArePlain(m, Changes(rows, m, index), Marked(rows, m, index));
      }
    } else {
      ScannedAll(rows, m);
      MineChanges(rows, m, index);
      ChangesArePlain(m, Tombstones(Mine(StaleFor(rows, m, index))), []);
      ChangesArePlain(m, Tombstones(StaleFor(rows, m, index)), []);
      assert forall a: seq<Op> :: a + [] == a;
    }
  }

  lemma AdditionKeepsTied(s: Store, m: Message, index: nat, k: nat)
    requires index < |m.parts| && Tied(s) && Find(RowsOf(s.rows, Of(m.id)), index).None?
    requires MayJoin(RowsOf(s.rows, Of(m.id)), m, index) && k <= 2
    ensures Tied(Exec(s, Addition(m, index)[..k]))
  {
    if k == 2 {
      assert Addition(m, index)[..2] == Addition(m, index);
      AddedIsTied(s, m, index);
    } else {
      PlainsKeepTied(s, m, Addition(m, index)[..k]);
    }
  }

  lemma PrefixKeepsTied(s: Store, m: Message, ops: seq<Op>, k: nat)
    requires Tied(s) && AllPlain(m, ops) && k <= |ops|
    ensures Tied(Exec(s, ops[..k]))
  {
    PlainsKeepTied(s, m, ops[..k]);
  }

  lemma PartKeepsTied(s: Store, m: Message, index: nat, k: nat)
    requires index < |m.parts| && Tied(s) && InTurn(s, m, index) && k <= |PlanFor(s, Part(m, index)).ops|
    ensures Tied(Exec(s, PlanFor(s, Part(m, index)).ops[..k]))
  {
    hide PlanFor, Tied, AllPlain, MayJoin, Normal, Find;
    PlanShapes(s, m, index);
    var rows := RowsOf(s.rows, Of(m.id));
    if Normal(rows, m, index) && Find(rows, index).None? {
      AdditionKeepsTied(s, m, index, k);
    } else {
      PrefixKeepsTied(s, m, PlanFor(s, Part(m, index)).ops, k);
    }
  }

  lemma NoticeKeepsTied(s: Store, checkpoint: Checkpoint, k: nat)
    requires Tied(s) && k <= |PlanFor(s, Branch(checkpoint)).ops|
    ensures Tied(Exec(s, PlanFor(s, Branch(checkpoint)).ops[..k]))
  {
    var ops := PlanFor(s, Branch(checkpoint)).ops;
    if k > 0 {
      var sent := Apply(s, ops[0]);
      PlainKeepsTied(s, Message(0, Source(User, ""), [""]), ops[0]);
      if k == 1 {
        assert ops[..1][1..] == [] && Exec(s, ops[..1]) == Exec(sent, []);
      } else {
        assert ops[..2] == ops && ops[1..] == [ops[1]] && [ops[1]][1..] == [];
        assert Exec(sent, [ops[1]]) == Exec(Apply(sent, ops[1]), []);
        NoticeRowTied(sent, ops[1]);
      }
    }
  }

  lemma NoticeRowTied(s: Store, op: Op)
    requires Tied(s) && op.Insert? && op.id.NoticeOf? && RowsOf(s.rows, op.id) == []
    ensures Tied(Apply(s, op))
  {
    var next := Apply(s, op);
    forall message: nat ensures RowsTied(next, message) {
      assert RowsTied(s, message);
      assert RowsOf(next.rows, Of(message)) == RowsOf(s.rows, Of(message));
      forall r | r in RowsOf(next.rows, Of(message)) ensures Owned(next, message, r) && HoldsOwn(r) { assert Owned(s, message, r); }
    }
    forall id: Id ensures Distinct(RowsOf(next.rows, id)) { assert Distinct(RowsOf(s.rows, id)); }
  }

  lemma CutKeepsTied(s: Store, past: seq<Event>, events: seq<Event>, k: nat)
    requires ValidEvents(past) && ValidEvents(events) && events != [] && Ordered(past, events)
    requires Tied(s) && AllDone(s, past) && k <= |PlanFor(s, events[0]).ops|
    ensures Tied(Exec(s, PlanFor(s, events[0]).ops[..k]))
  {
    assert events[0] in events;
    match events[0]
    case Branch(checkpoint) => NoticeKeepsTied(s, checkpoint, k);
    case Part(m, index) =>
      assert past + events[..0] == past;
      PartKeepsTied(s, m, index, k);
  }

  lemma WholeKeepsTied(s: Store, past: seq<Event>, events: seq<Event>)
    requires ValidEvents(past) && ValidEvents(events) && events != [] && Ordered(past, events)
    requires Tied(s) && AllDone(s, past)
    ensures Tied(Exec(s, PlanFor(s, events[0]).ops))
  {
    var ops := PlanFor(s, events[0]).ops;
    assert ops[..|ops|] == ops;
    CutKeepsTied(s, past, events, |ops|);
  }

  /** Whatever is cut off and given up, the store stays tied. */
  lemma {:induction false} AttemptKeepsTied(s: Store, past: seq<Event>, events: seq<Event>, budget: nat)
    requires ValidEvents(past) && ValidEvents(events) && Coherent(past + events) && Ordered(past, events)
    requires Tied(s) && AllDone(s, past)
    ensures Tied(Attempt(s, events, budget))
    decreases |events|
  {
    hide PlanFor, Tied;
    if events != [] {
      TiedIsWell(s);
      var plan := PlanFor(s, events[0]);
      if budget < |plan.ops| {
        CutKeepsTied(s, past, events, budget);
      } else {
        WholeKeepsTied(s, past, events);
        if plan.ok {
          EventMovesOn(s, past, events);
          OrderedRest(past, events);
          AttemptKeepsTied(Exec(s, plan.ops), past + [events[0]], events[1..], budget - |plan.ops|);
        }
      }
    }
  }

  lemma TiedIsWell(s: Store)
    requires Tied(s)
    ensures Well(s) && Served(s)
  {
  }

  // ---------------------------------------------------------------- when a dispatch succeeds

  /**
   What is stored of a row says that nothing of its message is to be touched: it is an attachment's,
   or one of the user's own messages whose text has not changed.
   */
  predicate EndsHere(row: Row, m: Message) {
    row.meta.attachments
    || (m.source == Source(User, m.source.body) && row.part == 0 && row.meta.count == 0 && row.meta.hash == m.source)
  }

  /** What is stored of a row says that its event already shows what the message is to show there. */
  predicate Recorded(row: Row, m: Message) {
    && row.meta.hash == m.source
    && if row.part >= |m.parts| then row.meta.shown == Some(TOMBSTONE) && row.meta.count == |m.parts|
       else
         || (row.meta.shown.None? && m.source.role.User?)
         || (row.meta.shown == Some(m.parts[row.part]) && (row.meta.count == |m.parts| || (row.meta.count == 0 && |m.parts| == 1)))
  }

  /** By what is stored of its rows, one has to be edited and is someone else's. */
  predicate Stuck(rows: seq<Row>, m: Message) {
    && (forall r :: r in rows ==> !EndsHere(r, m))
    && exists r :: r in rows && !r.mine && !Recorded(r, m)
  }

  /** A row whose event this sender may not edit, though the message calls for its edit. */
  predicate Blocks(row: Row, m: Message) {
    !row.mine &&
    if row.part >= |m.parts| then Differs(row, m, TOMBSTONE) else !UpToDate(row, m, m.parts[row.part])
  }

  /** A row ends reconciliation: nothing of the message is touched. */
  predicate Settled(rows: seq<Row>, m: Message) {
    exists r :: r in rows && Settling(r, m)
  }

  predicate Blocked(s: Store, m: Message) {
    var rows := RowsOf(s.rows, Of(m.id));
    !Settled(rows, m) && exists r :: r in rows && Blocks(r, m)
  }

  /** The rows an event of part index looks at: its own and, for part 0, those past the last part. */
  predicate InScope(m: Message, index: nat, part: nat) {
    part == index || (index == 0 && part >= |m.parts|)
  }

  predicate Clear(s: Store, e: Event) {
    e.Part? ==>
      var rows := RowsOf(s.rows, Of(e.message.id));
      Settled(rows, e.message) || forall r :: r in rows && InScope(e.message, e.index, r.part) ==> !Blocks(r, e.message)
  }

  lemma OkExactly(s: Store, e: Event)
    requires ValidEvent(e) && Tied(s)
    ensures PlanFor(s, e).ok <==> Clear(s, e)
  {
    hide Tied, Blocks, InScope, Reconcile;
    if e.Part? {
      var rows := RowsOf(s.rows, Of(e.message.id));
      TiedRows(s, e.message.id);
      PlanIs(s, e.message, e.index);
      if Settled(rows, e.message) { SettledPlan(rows, e.message, e.index); } else { UnsettledOk(rows, e.message, e.index); }
    }
  }

  lemma UnsettledOk(rows: seq<Row>, m: Message, index: nat)
    requires index < |m.parts| && Distinct(rows) && !Settled(rows, m)
    ensures Reconcile(rows, m, index).ok <==> forall r :: r in rows && InScope(m, index, r.part) ==> !Blocks(r, m)
  {
    ScannedAll(rows, m);
    StaleAre(rows, m);
    FindIs(rows, index);
    forall r | r in rows && r.part == index ensures Find(rows, index) == Some(r) { FindMember(rows, r); }
  }

  // ---------------------------------------------------------------- what one event leaves alone

  /** The parts of a message that an operation is about. */
  predicate Within(m: Message, index: nat, op: Op) {
    match op
    case Send(key, _) => key.id == Of(m.id) && InScope(m, index, key.part)
    case Save(id, part, _) => id == Of(m.id) && InScope(m, index, part)
    case Insert(id, part, _, _) => id == Of(m.id) && InScope(m, index, part)
  }

  /** A request edits an event only of a row of its own part. */
  predicate Aimed(rows: seq<Row>, op: Op) {
    op.Send? && op.post.Replace? ==> exists r :: r in rows && r.part == op.key.part && r.event == op.post.target
  }

  predicate Confined(rows: seq<Row>, m: Message, index: nat, ops: seq<Op>) {
    forall op :: op in ops ==> Within(m, index, op) && Aimed(rows, op)
  }

  lemma ChangesConfined(rows: seq<Row>, m: Message, index: nat, a: seq<Change>, b: seq<Change>)
    requires forall c :: c in a ==> c.row in rows && InScope(m, index, c.row.part)
    requires forall c :: c in b ==> InScope(m, index, c.row.part)
    ensures Confined(rows, m, index, Edits(m, a) + Saves(m, b))
  {
    hide Edits, Saves;
    EditsAreSends(m, a);
    EditsAreSends(m, b);
    var ops := Edits(m, a) + Saves(m, b);
    forall op | op in ops ensures Within(m, index, op) && Aimed(rows, op) {
      var k :| 0 <= k < |ops| && ops[k] == op;
      if k < |a| {
        assert op == EditOf(m, a[k]) && a[k] in a;
      } else {
        assert op == SaveOf(m, b[k - |a|]) && b[k - |a|] in b;
      }
    }
  }

  lemma NormalIsConfined(rows: seq<Row>, m: Message, index: nat)
    requires index < |m.parts| && Distinct(rows) && Normal(rows, m, index)
    ensures Confined(rows, m, index, Edits(m, Changes(rows, m, index)) + Saves(m, Marked(rows, m, index)))
  {
    ChangesAreMarked(rows, m, index);
    MarkedAre(rows, m, index);
    ChangesConfined(rows, m, index, Changes(rows, m, index), Marked(rows, m, index));
  }

  lemma FailingIsConfined(rows: seq<Row>, m: Message, index: nat)
    requires index < |m.parts| && Shaped(rows) && !Normal(rows, m, index)
    ensures Confined(rows, m, index, Reconcile(rows, m, index).ops)
  {
    ScannedAll(rows, m);
    MineChanges(rows, m, index);
    if Settled(rows, m) { SettledPlan(rows, m, index); } else { StaleConfined(rows, m, index); }
  }

  lemma AdditionIsConfined(rows: seq<Row>, m: Message, index: nat)
    requires index < |m.parts|
    ensures Confined(rows, m, index, Addition(m, index))
  {
  }

  lemma PartIsConfined(s: Store, m: Message, index: nat)
    requires index < |m.parts| && Tied(s) && InTurn(s, m, index)
    ensures Confined(RowsOf(s.rows, Of(m.id)), m, index, PlanFor(s, Part(m, index)).ops)
  {
    hide Tied, Normal, Find, Confined, InTurn, Shaped, PlanFor, Reconcile;
    var rows := RowsOf(s.rows, Of(m.id));
    TiedRows(s, m.id);
    if !Normal(rows, m, index) {
      FailingIsConfined(rows, m, index);
      PlanIs(s, m, index);
    } else if Find(rows, index).None? {
      JoinsInTurn(s, m, index);
      AdditionIsConfined(rows, m, index);
    } else {
      NormalIsConfined(rows, m, index);
      EditedPlan(s, m, index);
    }
  }

  lemma PlanIs(s: Store, m: Message, index: nat)
    requires index < |m.parts|
    ensures PlanFor(s, Part(m, index)) == Reconcile(RowsOf(s.rows, Of(m.id)), m, index)
  {
  }

  lemma EditedPlan(s: Store, m: Message, index: nat)
    requires index < |m.parts| && Normal(RowsOf(s.rows, Of(m.id)), m, index) && Find(RowsOf(s.rows, Of(m.id)), index).Some?
    ensures var rows := RowsOf(s.rows, Of(m.id));
      PlanFor(s, Part(m, index)) == Plan(Edits(m, Changes(rows, m, index)) + Saves(m, Marked(rows, m, index)), true)
  {
    var rows := RowsOf(s.rows, Of(m.id));
    NormalOps(s, m, index);
    assert Edits(m, Changes(rows, m, index)) + (Saves(m, Marked(rows, m, index)) + []) ==
      Edits(m, Changes(rows, m, index)) + Saves(m, Marked(rows, m, index));
  }

  /** Tombstones sent before reconciliation fails. */
  lemma StaleConfined(rows: seq<Row>, m: Message, index: nat)
    ensures var stale := if index == 0 then Stale(rows, m) else [];
      Confined(rows, m, index, Edits(m, Tombstones(stale))) && Confined(rows, m, index, Edits(m, Tombstones(Mine(stale))))
  {
    hide Edits, Stale, Mine;
    var stale := if index == 0 then Stale(rows, m) else [];
    StaleAre(rows, m);
    MineAre(stale);
    TombstonesAre(stale);
    TombstonesAre(Mine(stale));
    forall c | c in Tombstones(stale) || c in Tombstones(Mine(stale)) ensures c.row in stale {
      if c in Tombstones(stale) {
        var k :| 0 <= k < |stale| && Tombstones(stale)[k] == c;
      } else {
        var k :| 0 <= k < |Mine(stale)| && Tombstones(Mine(stale))[k] == c;
        assert Mine(stale)[k] in Mine(stale);
      }
    }
    ChangesConfined(rows, m, index, Tombstones(stale), []);
    ChangesConfined(rows, m, index, Tombstones(Mine(stale)), []);
    assert Edits(m, Tombstones(stale)) + [] == Edits(m, Tombstones(stale));
    assert Edits(m, Tombstones(Mine(stale))) + [] == Edits(m, Tombstones(Mine(stale)));
  }

  lemma {:induction false} MineAre(rows: seq<Row>)
    ensures forall r :: r in Mine(rows) ==> r in rows
  {
    if rows != [] && rows[0].mine { MineAre(rows[1..]); }
  }

  /** The store after some of an event's operations, as far as other parts are concerned. */
  ghost predicate Framed(s: Store, next: Store, m: Message, index: nat) {
    && s.timeline <= next.timeline
    && (forall id: Id :: id != Of(m.id) ==> RowsOf(next.rows, id) == RowsOf(s.rows, id))
    && (forall p: nat :: !InScope(m, index, p) ==> Find(RowsOf(next.rows, Of(m.id)), p) == Find(RowsOf(s.rows, Of(m.id)), p))
    && (forall k :: k in s.accepted ==> k in next.accepted && next.accepted[k] == s.accepted[k])
    && (forall k :: k in next.accepted && k !in s.accepted ==> k.id == Of(m.id) && InScope(m, index, k.part))
  }

  /** What an event shows is changed only by requests aimed at it. */
  predicate Aims(rows: seq<Row>, m: Message, index: nat, event: nat) {
    exists r :: r in rows && InScope(m, index, r.part) && r.event == event
  }

  lemma {:induction false} OpsAreFramed(s: Store, rows: seq<Row>, m: Message, index: nat, ops: seq<Op>)
    requires Confined(rows, m, index, ops)
    ensures Framed(s, Exec(s, ops), m, index)
    ensures forall event: nat :: event < |s.timeline| && !Aims(rows, m, index, event) ==>
      Visible(Exec(s, ops).timeline, event) == Visible(s.timeline, event)
    decreases |ops|
  {
    if ops != [] {
      OpIsFramed(s, rows, m, index, ops[0]);
      OpsAreFramed(Apply(s, ops[0]), rows, m, index, ops[1..]);
    }
  }

  lemma OpIsFramed(s: Store, rows: seq<Row>, m: Message, index: nat, op: Op)
    requires Within(m, index, op) && Aimed(rows, op)
    ensures Framed(s, Apply(s, op), m, index)
    ensures forall event: nat :: event < |s.timeline| && !Aims(rows, m, index, event) ==>
      Visible(Apply(s, op).timeline, event) == Visible(s.timeline, event)
  {
    match op
    case Send(key, post) =>
      forall event: nat | event < |s.timeline| && !Aims(rows, m, index, event)
        ensures Visible(Apply(s, op).timeline, event) == Visible(s.timeline, event)
      {
        VisibleAfter(s.timeline, Sent(Some(key), post), event);
      }
    case Save(id, part, meta) =>
      forall p: nat | !InScope(m, index, p)
        ensures Find(RowsOf(Apply(s, op).rows, Of(m.id)), p) == Find(RowsOf(s.rows, Of(m.id)), p)
      {
        FindAfterSet(RowsOf(s.rows, Of(m.id)), part, meta, p);
      }
    case Insert(id, part, key, meta) =>
      var event := if key in s.accepted then s.accepted[key] else 0;
      forall p: nat | !InScope(m, index, p)
        ensures Find(RowsOf(Apply(s, op).rows, Of(m.id)), p) == Find(RowsOf(s.rows, Of(m.id)), p)
      {
        FindAfterAdd(RowsOf(s.rows, Of(m.id)), Row(part, event, true, meta), p);
      }
  }

  // ---------------------------------------------------------------- success, for all events

  predicate Unsettled(rows: seq<Row>, m: Message) {
    forall r :: r in rows ==> !Settling(r, m)
  }

  /** Row updates and insertions that leave no row that ends reconciliation. */
  predicate Counts(m: Message, op: Op) {
    match op
    case Send(_, _) => true
    case Save(id, _, meta) => id == Of(m.id) && HoldsPart(meta)
    case Insert(id, _, _, meta) => id == Of(m.id) && HoldsPart(meta)
  }

  lemma {:induction false} CountsKeepUnsettled(s: Store, m: Message, ops: seq<Op>)
    requires Unsettled(RowsOf(s.rows, Of(m.id)), m) && forall op :: op in ops ==> Counts(m, op)
    ensures Unsettled(RowsOf(Exec(s, ops).rows, Of(m.id)), m)
    decreases |ops|
  {
    if ops != [] {
      CountKeepsUnsettled(s, m, ops[0]);
      CountsKeepUnsettled(Apply(s, ops[0]), m, ops[1..]);
    }
  }

  lemma CountKeepsUnsettled(s: Store, m: Message, op: Op)
    requires Unsettled(RowsOf(s.rows, Of(m.id)), m) && Counts(m, op)
    ensures Unsettled(RowsOf(Apply(s, op).rows, Of(m.id)), m)
  {
    var rows := RowsOf(s.rows, Of(m.id));
    if op.Save? {
      SetMetaAt(rows, op.part, op.meta);
      var saved := SetMeta(rows, op.part, op.meta);
      forall r | r in saved ensures !Settling(r, m) {
        var k :| 0 <= k < |saved| && saved[k] == r;
        assert rows[k] in rows;
      }
    }
  }

  lemma PlainsCount(m: Message, index: nat, rows: seq<Row>, ops: seq<Op>)
    requires AllPlain(m, ops) && Confined(rows, m, index, ops)
    ensures forall op :: op in ops ==> Counts(m, op)
  {
    forall op | op in ops ensures Counts(m, op) { assert Plain(m, op) && Within(m, index, op); }
  }

  /** A message of several parts that is not settled is not settled by one of them. */
  lemma StaysUnsettled(s: Store, m: Message, index: nat)
    requires index < |m.parts| && |m.parts| > 1 && Tied(s) && InTurn(s, m, index)
    requires Unsettled(RowsOf(s.rows, Of(m.id)), m)
    ensures Unsettled(RowsOf(Exec(s, PlanFor(s, Part(m, index)).ops).rows, Of(m.id)), m)
  {
    hide PlanFor, Tied, InTurn, Normal, Find, MayJoin, AllPlain, Confined;
    var rows := RowsOf(s.rows, Of(m.id));
    PlanShapes(s, m, index);
    PartIsConfined(s, m, index);
    var ops := PlanFor(s, Part(m, index)).ops;
    if !(Normal(rows, m, index) && Find(rows, index).None?) {
      PlainsCount(m, index, rows, ops);
    } else {
      assert forall op :: op in Addition(m, index) ==> Counts(m, op);
    }
    CountsKeepUnsettled(s, m, ops);
  }

  /** An event, and one of another message, of another part, or a notice. */
  lemma ClearStays(s: Store, f: Event, e: Event)
    requires ValidEvent(f) && ValidEvent(e) && Compatible(e, f) && Tied(s)
    requires f.Part? ==> InTurn(s, f.message, f.index)
    ensures Clear(Exec(s, PlanFor(s, f).ops), e) <==> Clear(s, e)
  {
    if e.Part? {
      if f.Part? && f.message.id == e.message.id {
        SameMessageClear(s, f.message, f.index, e.index);
      } else {
        PlanIsForItsId(s, f);
        OtherRows(s, PlanFor(s, f).ops, IdOf(f), Of(e.message.id));
      }
    }
  }

  lemma SameMessageClear(s: Store, m: Message, f: nat, e: nat)
    requires f < |m.parts| && e < |m.parts| && e != f && Tied(s) && InTurn(s, m, f)
    ensures Clear(Exec(s, PlanFor(s, Part(m, f)).ops), Part(m, e)) <==> Clear(s, Part(m, e))
  {
    var rows := RowsOf(s.rows, Of(m.id));
    assert RowsTied(s, m.id);
    if Settled(rows, m) {
      SettledPlan(rows, m, f);
    } else {
      var next := Exec(s, PlanFor(s, Part(m, f)).ops);
      PartIsConfined(s, m, f);
      OpsAreFramed(s, rows, m, f, PlanFor(s, Part(m, f)).ops);
      StaysUnsettled(s, m, f);
      var ops := PlanFor(s, Part(m, f)).ops;
      assert ops[..|ops|] == ops;
      CutIsWell(s, Part(m, f), |ops|);
      SameInScope(rows, RowsOf(next.rows, Of(m.id)), m, e, f);
    }
  }

  /** The rows one part looks at are none of another's. */
  lemma SameInScope(rows: seq<Row>, after: seq<Row>, m: Message, e: nat, f: nat)
    requires e < |m.parts| && f < |m.parts| && e != f && Distinct(rows) && Distinct(after)
    requires forall p: nat :: !InScope(m, f, p) ==> Find(after, p) == Find(rows, p)
    ensures forall r: Row :: InScope(m, e, r.part) ==> (r in rows <==> r in after)
  {
    forall r: Row | InScope(m, e, r.part) ensures r in rows <==> r in after {
      assert !InScope(m, f, r.part) && Find(after, r.part) == Find(rows, r.part);
      if r in rows { FindMember(rows, r); FindIs(after, r.part); }
      if r in after { FindMember(after, r); FindIs(rows, r.part); }
    }
  }

  predicate AllClear(s: Store, events: seq<Event>) {
    forall e :: e in events ==> Clear(s, e)
  }

  lemma {:induction false} DeliverSucceeds(s: Store, past: seq<Event>, events: seq<Event>)
    requires ValidEvents(past) && ValidEvents(events) && Coherent(past + events) && Ordered(past, events)
    requires Tied(s) && AllDone(s, past)
    ensures Deliver(s, events).ok <==> AllClear(s, events)
    decreases |events|
  {
    hide PlanFor, Tied, Clear;
    if events != [] {
      assert events[0] in events;
      OkExactly(s, events[0]);
      if PlanFor(s, events[0]).ok {
        var next := Exec(s, PlanFor(s, events[0]).ops);
        TiedIsWell(s);
        WholeKeepsTied(s, past, events);
        EventMovesOn(s, past, events);
        OrderedRest(past, events);
        DeliverSucceeds(next, past + [events[0]], events[1..]);
        RestStaysClear(s, past, events);
      }
    }
  }

  lemma FirstInTurn(s: Store, past: seq<Event>, events: seq<Event>)
    requires ValidEvents(past) && ValidEvents(events) && events != [] && Ordered(past, events) && AllDone(s, past)
    ensures events[0] in events && (events[0].Part? ==> InTurn(s, events[0].message, events[0].index))
  {
    assert past + events[..0] == past;
    assert events[0] in events;
  }

  lemma RestStaysClear(s: Store, past: seq<Event>, events: seq<Event>)
    requires ValidEvents(past) && ValidEvents(events) && events != [] && Coherent(past + events) && Ordered(past, events)
    requires Tied(s) && AllDone(s, past)
    ensures var next := Exec(s, PlanFor(s, events[0]).ops);
      AllClear(next, events[1..]) <==> AllClear(s, events[1..])
  {
    hide PlanFor, Tied, Clear;
    var next := Exec(s, PlanFor(s, events[0]).ops);
    FirstInTurn(s, past, events);
    forall e | e in events[1..] ensures Clear(next, e) <==> Clear(s, e) {
      var k :| 0 <= k < |events[1..]| && events[1..][k] == e;
      assert (past + events)[|past| + 1 + k] == e && (past + events)[|past|] == events[0] && e in events;
      ClearStays(s, events[0], e);
    }
  }

  lemma BlockedIsStuck(s: Store, m: Message)
    ensures Settled(RowsOf(s.rows, Of(m.id)), m) <==> exists r :: r in RowsOf(s.rows, Of(m.id)) && EndsHere(r, m)
    ensures Blocked(s, m) <==> Stuck(RowsOf(s.rows, Of(m.id)), m)
  {
    var rows := RowsOf(s.rows, Of(m.id));
    forall r | r in rows
      ensures Settling(r, m) <==> EndsHere(r, m)
      ensures Blocks(r, m) <==> !r.mine && !Recorded(r, m)
    {
    }
  }

  predicate Unblocked(s: Store, messages: seq<Message>) {
    forall m :: m in messages ==> !Blocked(s, m)
  }

  /** What a snapshot is: distinct messages, each of at least one part. */
  predicate Snapshot(messages: seq<Message>) {
    DistinctIds(messages) && forall m :: m in messages ==> |m.parts| > 0
  }

  lemma ClearIsUnblocked(s: Store, m: Message)
    requires |m.parts| > 0
    ensures (forall i: nat :: i < |m.parts| ==> Clear(s, Part(m, i))) <==> !Blocked(s, m)
  {
    var rows := RowsOf(s.rows, Of(m.id));
    if !Settled(rows, m) && forall i: nat :: i < |m.parts| ==> Clear(s, Part(m, i)) {
      forall r | r in rows ensures !Blocks(r, m) {
        var i := if r.part >= |m.parts| then 0 else r.part;
        assert Clear(s, Part(m, i)) && InScope(m, i, r.part);
      }
    }
  }

  /**
   From any store a room's life can lead to, a dispatch that is not cut off succeeds exactly when
   no message is blocked: none that reconciliation would look at has a row that is to be edited
   and belongs to someone else.
   */
  lemma DispatchSucceeds(s: Store, notice: Option<Checkpoint>, messages: seq<Message>)
    requires Tied(s) && Snapshot(messages)
    ensures ValidEvents(Dispatched(notice, messages))
    ensures Deliver(s, Dispatched(notice, messages)).ok <==> Unblocked(s, messages)
    ensures Unblocked(s, messages) <==> forall m :: m in messages ==> !Stuck(RowsOf(s.rows, Of(m.id)), m)
  {
    hide Stuck;
    forall m | m in messages ensures Blocked(s, m) <==> Stuck(RowsOf(s.rows, Of(m.id)), m) { BlockedIsStuck(s, m); }
    var events := Dispatched(notice, messages);
    EventsAre(messages);
    DispatchedCoherent(notice, messages);
    DispatchedOrdered(notice, messages);
    assert [] + events == events;
    DeliverSucceeds(s, [], events);
    assert AllClear(s, events) <==> forall m, i: nat :: m in messages && i < |m.parts| ==> Clear(s, Part(m, i)) by {
      assert forall e :: e in events && e.Part? ==> e in EventsOf(messages);
    }
    forall m | m in messages ensures (forall i: nat :: i < |m.parts| ==> Clear(s, Part(m, i))) <==> !Blocked(s, m) {
      ClearIsUnblocked(s, m);
    }
  }

  // ---------------------------------------------------------------- what a dispatch shows

  /** The edit's transaction is new to the homeserver, or its event already shows the content. */
  predicate EditDue(s: Store, m: Message, row: Row, content: Content) {
    EditOf(m, Change(row, content)).key !in s.accepted || Visible(s.timeline, row.event) == Some(content)
  }

  /** The part's transaction is new to the homeserver, or was accepted for an event that shows its content. */
  predicate AdditionDue(s: Store, m: Message, index: nat)
    requires index < |m.parts|
  {
    var key := Original(Of(m.id), index);
    key !in s.accepted || Visible(s.timeline, s.accepted[key]) == Some(m.parts[index])
  }

  /** What the dispatch does for a part, if anything, will make it show its content. */
  predicate PartDue(s: Store, m: Message, index: nat)
    requires index < |m.parts|
  {
    var target := Find(RowsOf(s.rows, Of(m.id)), index);
    if target.None? then AdditionDue(s, m, index)
    else if UpToDate(target.value, m, m.parts[index]) then Visible(s.timeline, target.value.event) == Some(m.parts[index])
    else EditDue(s, m, target.value, m.parts[index])
  }

  predicate PastDue(s: Store, m: Message) {
    forall r :: r in RowsOf(s.rows, Of(m.id)) && r.part >= |m.parts| ==>
      if Differs(r, m, TOMBSTONE) then EditDue(s, m, r, TOMBSTONE) else Visible(s.timeline, r.event) == Some(TOMBSTONE)
  }

  predicate PartShown(s: Store, m: Message, index: nat)
    requires index < |m.parts|
  {
    var target := Find(RowsOf(s.rows, Of(m.id)), index);
    target.Some? && Visible(s.timeline, target.value.event) == Some(m.parts[index])
  }

  predicate PastShown(s: Store, m: Message) {
    forall r :: r in RowsOf(s.rows, Of(m.id)) && r.part >= |m.parts| ==> Visible(s.timeline, r.event) == Some(TOMBSTONE)
  }

  predicate EventDue(s: Store, m: Message, index: nat)
    requires index < |m.parts|
  {
    PartDue(s, m, index) && (index == 0 ==> PastDue(s, m))
  }

  predicate EventShown(s: Store, m: Message, index: nat)
    requires index < |m.parts|
  {
    PartShown(s, m, index) && (index == 0 ==> PastShown(s, m))
  }

  /** Rows keep their parts and events, whatever is edited. */
  predicate SameEvents(rows: seq<Row>, after: seq<Row>) {
    |after| == |rows| && forall k :: 0 <= k < |rows| ==> after[k].part == rows[k].part && after[k].event == rows[k].event
  }

  lemma {:induction false} EditsKeepEvents(s: Store, m: Message, changes: seq<Change>)
    ensures SameEvents(RowsOf(s.rows, Of(m.id)), RowsOf(OneByOne(s, m, changes).rows, Of(m.id)))
    decreases |changes|
  {
    if changes != [] {
      var c := changes[0];
      EditedRows(s, m, c);
      SetMetaAt(RowsOf(s.rows, Of(m.id)), c.row.part, EditedMeta(m, c));
      EditsKeepEvents(Edited(s, m, c), m, changes[1..]);
    }
  }

  predicate AllOwned(s: Store, m: Message, rows: seq<Row>) {
    forall r :: r in rows ==> Owned(s, m.id, r)
  }

  lemma OneEditKeepsOwned(s: Store, m: Message, c: Change)
    requires AllOwned(s, m, RowsOf(s.rows, Of(m.id)))
    ensures AllOwned(Edited(s, m, c), m, RowsOf(Edited(s, m, c).rows, Of(m.id)))
  {
    var rows := RowsOf(s.rows, Of(m.id));
    var after := RowsOf(Edited(s, m, c).rows, Of(m.id));
    EditedRows(s, m, c);
    SetMetaAt(rows, c.row.part, EditedMeta(m, c));
    forall r | r in after ensures Owned(Edited(s, m, c), m.id, r) {
      var k :| 0 <= k < |after| && after[k] == r;
      assert Owned(s, m.id, rows[k]);
    }
  }

  /** Another part's edit does not bear on an edit. */
  lemma DueStays(s: Store, m: Message, c: Change, d: Change)
    requires Owned(s, m.id, c.row) && Owned(s, m.id, d.row) && c.row.part != d.row.part
    ensures d.row.event != c.row.event && (EditDue(Edited(s, m, c), m, d.row, d.content) <==> EditDue(s, m, d.row, d.content))
  {
    if d.row.event == c.row.event { OwnerOf(s, m.id, c.row, m.id, d.row); }
    EditedShowsExactly(s, m, c);
  }

  lemma RestAreOthers(s: Store, m: Message, changes: seq<Change>, d: Change)
    requires Separate(RowsOf(s.rows, Of(m.id)), changes) && AllOwned(s, m, RowsOf(s.rows, Of(m.id)))
    requires changes != [] && d in changes[1..]
    ensures d in changes && Owned(s, m.id, d.row) && d.row.part != changes[0].row.part
  {
    var j :| 0 <= j < |changes[1..]| && changes[1..][j] == d;
    assert changes[j + 1] == d && d in changes;
  }

  lemma FirstOwned(s: Store, m: Message, changes: seq<Change>)
    requires Separate(RowsOf(s.rows, Of(m.id)), changes) && AllOwned(s, m, RowsOf(s.rows, Of(m.id))) && changes != []
    ensures changes[0] in changes && Owned(s, m.id, changes[0].row)
  {
    assert changes[0] in changes;
  }

  /** Each edit shows its content exactly when it was due to; what is not edited shows what it did. */
  lemma {:induction false} EditsShow(s: Store, m: Message, changes: seq<Change>)
    requires Separate(RowsOf(s.rows, Of(m.id)), changes) && AllOwned(s, m, RowsOf(s.rows, Of(m.id)))
    ensures var next := OneByOne(s, m, changes);
      && (forall c :: c in changes ==> (Visible(next.timeline, c.row.event) == Some(c.content) <==> EditDue(s, m, c.row, c.content)))
      && (forall event: nat :: event < |s.timeline| && (forall c :: c in changes ==> c.row.event != event) ==>
            Visible(next.timeline, event) == Visible(s.timeline, event))
    decreases |changes|
  {
    hide Visible, AllOwned;
    if changes != [] {
      var rows := RowsOf(s.rows, Of(m.id));
      var c, rest := changes[0], changes[1..];
      var edited := Edited(s, m, c);
      FirstOwned(s, m, changes);
      EditedShowsExactly(s, m, c);
      EditedRows(s, m, c);
      SeparateRest(rows, m, changes);
      OneEditKeepsOwned(s, m, c);
      EditsShow(edited, m, rest);
      forall d | d in rest ensures d.row.event != c.row.event && (EditDue(edited, m, d.row, d.content) <==> EditDue(s, m, d.row, d.content)) {
        RestAreOthers(s, m, changes, d);
        DueStays(s, m, c, d);
      }
      assert forall d :: d in changes <==> d == c || d in rest;
    }
  }

  lemma {:induction false} SameFind(rows: seq<Row>, after: seq<Row>, part: nat)
    requires SameEvents(rows, after)
    ensures Find(after, part).Some? <==> Find(rows, part).Some?
    ensures Find(rows, part).Some? ==> Find(after, part).value.event == Find(rows, part).value.event
  {
    if rows != [] {
      assert SameEvents(rows[1..], after[1..]);
      SameFind(rows[1..], after[1..], part);
    }
  }

  /** The part's own row after all its event's edits. */
  lemma TargetHandled(s: Store, m: Message, index: nat)
    requires index < |m.parts| && Tied(s) && Normal(RowsOf(s.rows, Of(m.id)), m, index)
    requires Find(RowsOf(s.rows, Of(m.id)), index).Some?
    ensures PartShown(OneByOne(s, m, Changes(RowsOf(s.rows, Of(m.id)), m, index)), m, index) <==> PartDue(s, m, index)
  {
    var rows := RowsOf(s.rows, Of(m.id));
    var changes := Changes(rows, m, index);
    var next := OneByOne(s, m, changes);
    assert RowsTied(s, m.id);
    ChangesAreSeparate(rows, m, index);
    EditsShow(s, m, changes);
    EditsKeepEvents(s, m, changes);
    SameFind(rows, RowsOf(next.rows, Of(m.id)), index);
    FindIs(rows, index);
    var row := Find(rows, index).value;
    assert Owned(s, m.id, row);
    ChangesAreMarked(rows, m, index);
    MarkedAre(rows, m, index);
    if UpToDate(row, m, m.parts[index]) {
      forall c | c in changes ensures c.row.event != row.event {
        assert MarkOf(c.row, m, index) == Some(c) && Owned(s, m.id, c.row);
        if c.row.event == row.event { OwnerOf(s, m.id, row, m.id, c.row); FindMember(rows, c.row); }
      }
    } else {
      assert MarkOf(row, m, index) == Some(Change(row, m.parts[index]));
      assert Change(row, m.parts[index]) in changes;
    }
  }

  /** The rows past the last part, after part 0's event. */
  lemma PastHandled(s: Store, m: Message)
    requires 0 < |m.parts| && Tied(s) && Normal(RowsOf(s.rows, Of(m.id)), m, 0)
    ensures PastShown(OneByOne(s, m, Changes(RowsOf(s.rows, Of(m.id)), m, 0)), m) <==> PastDue(s, m)
  {
    var rows := RowsOf(s.rows, Of(m.id));
    var changes := Changes(rows, m, 0);
    var next := OneByOne(s, m, changes);
    var after := RowsOf(next.rows, Of(m.id));
    hide Tied, Normal, Visible, EditDue, Differs, Changes, OneByOne;
    EditsKeepEvents(s, m, changes);
    forall r | r in rows && r.part >= |m.parts|
      ensures Visible(next.timeline, r.event) == Some(TOMBSTONE) <==>
        if Differs(r, m, TOMBSTONE) then EditDue(s, m, r, TOMBSTONE) else Visible(s.timeline, r.event) == Some(TOMBSTONE)
    {
      PastRowHandled(s, m, r);
    }
    PastByEvents(rows, after, next, m);
  }

  /** Rows with the same parts and events show the same. */
  lemma PastByEvents(rows: seq<Row>, after: seq<Row>, next: Store, m: Message)
    requires SameEvents(rows, after) && after == RowsOf(next.rows, Of(m.id))
    ensures PastShown(next, m) <==>
      forall r :: r in rows && r.part >= |m.parts| ==> Visible(next.timeline, r.event) == Some(TOMBSTONE)
  {
    hide Visible;
    if PastShown(next, m) {
      forall r | r in rows && r.part >= |m.parts| ensures Visible(next.timeline, r.event) == Some(TOMBSTONE) {
        var k :| 0 <= k < |rows| && rows[k] == r;
        assert after[k] in after;
      }
    }
    if forall r :: r in rows && r.part >= |m.parts| ==> Visible(next.timeline, r.event) == Some(TOMBSTONE) {
      forall r | r in after && r.part >= |m.parts| ensures Visible(next.timeline, r.event) == Some(TOMBSTONE) {
        var k :| 0 <= k < |after| && after[k] == r;
        assert rows[k] in rows;
      }
    }
  }

  lemma PastRowHandled(s: Store, m: Message, r: Row)
    requires 0 < |m.parts| && Tied(s) && Normal(RowsOf(s.rows, Of(m.id)), m, 0)
    requires r in RowsOf(s.rows, Of(m.id)) && r.part >= |m.parts|
    ensures var next := OneByOne(s, m, Changes(RowsOf(s.rows, Of(m.id)), m, 0));
      Visible(next.timeline, r.event) == Some(TOMBSTONE) <==>
        if Differs(r, m, TOMBSTONE) then EditDue(s, m, r, TOMBSTONE) else Visible(s.timeline, r.event) == Some(TOMBSTONE)
  {
    var rows := RowsOf(s.rows, Of(m.id));
    var changes := Changes(rows, m, 0);
    assert RowsTied(s, m.id) && Owned(s, m.id, r);
    ChangesAreSeparate(rows, m, 0);
    EditsShow(s, m, changes);
    ChangesAreMarked(rows, m, 0);
    MarkedAre(rows, m, 0);
    if Differs(r, m, TOMBSTONE) {
      assert MarkOf(r, m, 0) == Some(Change(r, TOMBSTONE));
      assert Change(r, TOMBSTONE) in changes;
    } else {
      forall c | c in changes ensures c.row.event != r.event {
        assert MarkOf(c.row, m, 0) == Some(c) && Owned(s, m.id, c.row);
        if c.row.event == r.event { OwnerOf(s, m.id, r, m.id, c.row); FindMember(rows, c.row); FindMember(rows, r); }
      }
    }
  }

  /** A part's event that succeeds shows its part, and part 0's the rows past the last, exactly when that was due. */
  lemma EventHandled(s: Store, m: Message, index: nat)
    requires index < |m.parts| && Tied(s) && InTurn(s, m, index)
    requires Unsettled(RowsOf(s.rows, Of(m.id)), m) && PlanFor(s, Part(m, index)).ok
    ensures EventShown(Exec(s, PlanFor(s, Part(m, index)).ops), m, index) <==> EventDue(s, m, index)
  {
    var rows := RowsOf(s.rows, Of(m.id));
    assert RowsTied(s, m.id);
    ScannedAll(rows, m);
    MineChanges(rows, m, index);
    assert Normal(rows, m, index);
    if Find(rows, index).None? {
      JoinsInTurn(s, m, index);
      AddedShowsExactly(s, m, index);
      AddedEvent(s, m, index);
      if index == 0 { assert rows == []; }
    } else {
      EditedPlan(s, m, index);
      EventEdits(s, m, index);
      TargetHandled(s, m, index);
      if index == 0 { PastHandled(s, m); }
    }
  }

  // ---------------------------------------------------------------- events do not disturb one another

  /** Nothing that bears on a part of a message is different. */
  ghost predicate SameFor(s: Store, next: Store, m: Message, index: nat)
    requires index < |m.parts|
  {
    var rows := RowsOf(s.rows, Of(m.id));
    var after := RowsOf(next.rows, Of(m.id));
    && (forall r: Row :: InScope(m, index, r.part) ==> (r in rows <==> r in after))
    && Find(after, index) == Find(rows, index)
    && (forall r :: r in rows && InScope(m, index, r.part) ==> Visible(next.timeline, r.event) == Visible(s.timeline, r.event))
    && (forall k: Key :: k.id == Of(m.id) && InScope(m, index, k.part) ==>
          (k in s.accepted <==> k in next.accepted)
          && (k in s.accepted ==> next.accepted[k] == s.accepted[k]))
    && (Find(rows, index).None? && Original(Of(m.id), index) in s.accepted ==>
          var event := s.accepted[Original(Of(m.id), index)]; Visible(next.timeline, event) == Visible(s.timeline, event))
  }

  lemma SameDueAndShown(s: Store, next: Store, m: Message, index: nat)
    requires index < |m.parts| && SameFor(s, next, m, index)
    ensures EventDue(next, m, index) <==> EventDue(s, m, index)
    ensures EventShown(next, m, index) <==> EventShown(s, m, index)
  {
    FindIs(RowsOf(s.rows, Of(m.id)), index);
  }

  /** What is framed from one part's event is the same for another part, or a part of another message. */
  lemma FramedIsSame(s: Store, next: Store, m: Message, index: nat, n: Message, other: nat)
    requires index < |m.parts| && other < |n.parts| && (m.id == n.id ==> m == n && index != other)
    requires Tied(s) && Well(next) && Framed(s, next, n, other)
    requires forall event: nat :: event < |s.timeline| && !Aims(RowsOf(s.rows, Of(n.id)), n, other, event) ==>
               Visible(next.timeline, event) == Visible(s.timeline, event)
    ensures SameFor(s, next, m, index)
  {
    hide InScope;
    var rows := RowsOf(s.rows, Of(m.id));
    var after := RowsOf(next.rows, Of(m.id));
    assert RowsTied(s, m.id) && RowsTied(s, n.id) && Distinct(after);
    ScopesApart(m, index, n, other);
    if m.id == n.id { SameInScope(rows, after, m, index, other); }
    forall r | r in rows && InScope(m, index, r.part) ensures Visible(next.timeline, r.event) == Visible(s.timeline, r.event) {
      assert Owned(s, m.id, r);
      NotAimedAt(s, m, n, other, r.event, r.part);
    }
    FindIs(rows, index);
    if Find(rows, index).None? && Original(Of(m.id), index) in s.accepted { KeyNotAimedAt(s, m, index, n, other); }
  }

  lemma ScopesApart(m: Message, index: nat, n: Message, other: nat)
    requires index < |m.parts| && other < |n.parts| && (m.id == n.id ==> m == n && index != other)
    ensures InScope(m, index, index) && forall p: nat :: m.id == n.id && InScope(m, index, p) ==> !InScope(n, other, p)
  {
  }

  /** Another event of the dispatch: another part of the message, or a part of another. */
  lemma OthersAreSame(s: Store, m: Message, index: nat, n: Message, other: nat)
    requires index < |m.parts| && other < |n.parts| && (m.id == n.id ==> m == n && index != other)
    requires Tied(s) && InTurn(s, n, other)
    ensures SameFor(s, Exec(s, PlanFor(s, Part(n, other)).ops), m, index)
  {
    hide PlanFor, Tied, SameFor, Framed;
    TiedIsWell(s);
    var ops := PlanFor(s, Part(n, other)).ops;
    PartIsConfined(s, n, other);
    OpsAreFramed(s, RowsOf(s.rows, Of(n.id)), n, other, ops);
    assert ops[..|ops|] == ops;
    CutIsWell(s, Part(n, other), |ops|);
    FramedIsSame(s, Exec(s, ops), m, index, n, other);
  }

  lemma NotAimedAt(s: Store, m: Message, n: Message, other: nat, event: nat, part: nat)
    requires RowsTied(s, n.id) && (m.id == n.id ==> m == n && !InScope(n, other, part))
    requires exists r: Row :: r.event == event && r.part == part && Owned(s, m.id, r)
    ensures !Aims(RowsOf(s.rows, Of(n.id)), n, other, event)
  {
    var r: Row :| r.event == event && r.part == part && Owned(s, m.id, r);
    forall q | q in RowsOf(s.rows, Of(n.id)) && InScope(n, other, q.part) ensures q.event != event {
      assert Owned(s, n.id, q);
      if q.event == event { OwnerOf(s, m.id, r, n.id, q); }
    }
  }

  /** The event of a part whose row was never inserted is no row's. */
  lemma KeyNotAimedAt(s: Store, m: Message, index: nat, n: Message, other: nat)
    requires index < |m.parts| && Served(s) && RowsTied(s, n.id) && (m.id == n.id ==> m == n && index != other)
    requires Original(Of(m.id), index) in s.accepted && forall r :: r in RowsOf(s.rows, Of(m.id)) ==> r.part != index
    ensures var event := s.accepted[Original(Of(m.id), index)];
      event < |s.timeline| && !Aims(RowsOf(s.rows, Of(n.id)), n, other, event)
  {
    var event := s.accepted[Original(Of(m.id), index)];
    forall q | q in RowsOf(s.rows, Of(n.id)) && InScope(n, other, q.part) ensures q.event != event {
      assert Owned(s, n.id, q);
    }
  }

  lemma NoticeIsSame(s: Store, m: Message, index: nat, checkpoint: Checkpoint)
    requires index < |m.parts| && Tied(s)
    ensures SameFor(s, Exec(s, PlanFor(s, Branch(checkpoint)).ops), m, index)
  {
    var next := Exec(s, PlanFor(s, Branch(checkpoint)).ops);
    assert RowsTied(s, m.id);
    if RowsOf(s.rows, NoticeOf(checkpoint)) == [] {
      NoticeIs(s, checkpoint);
      forall event: nat | event < |s.timeline| ensures Visible(next.timeline, event) == Visible(s.timeline, event) {
        VisibleAfter(s.timeline, Sent(Some(Original(NoticeOf(checkpoint), 0)), Notice), event);
      }
      forall r | r in RowsOf(s.rows, Of(m.id)) ensures r.event < |s.timeline| { assert Owned(s, m.id, r); }
    }
  }

  lemma EventLeavesSame(s: Store, f: Event, m: Message, index: nat)
    requires ValidEvent(f) && index < |m.parts| && Compatible(Part(m, index), f) && Tied(s)
    requires f.Part? ==> InTurn(s, f.message, f.index)
    ensures SameFor(s, Exec(s, PlanFor(s, f).ops), m, index)
  {
    match f
    case Part(n, other) => OthersAreSame(s, m, index, n, other);
    case Branch(checkpoint) => NoticeIsSame(s, m, index, checkpoint);
  }

  // ---------------------------------------------------------------- the whole dispatch

  /** A part shown, or not, stays so through the events of other parts. */
  lemma {:induction false} ShownStays(s: Store, past: seq<Event>, events: seq<Event>, m: Message, index: nat)
    requires ValidEvents(past) && ValidEvents(events) && Coherent(past + events) && Ordered(past, events)
    requires Tied(s) && AllDone(s, past) && Deliver(s, events).ok
    requires index < |m.parts| && forall f :: f in events ==> Compatible(Part(m, index), f)
    ensures EventShown(Deliver(s, events).store, m, index) <==> EventShown(s, m, index)
    decreases |events|
  {
    hide PlanFor, Tied, EventShown;
    if events != [] {
      var next := Exec(s, PlanFor(s, events[0]).ops);
      TiedIsWell(s);
      FirstInTurn(s, past, events);
      EventLeavesSame(s, events[0], m, index);
      SameDueAndShown(s, next, m, index);
      WholeKeepsTied(s, past, events);
      EventMovesOn(s, past, events);
      OrderedRest(past, events);
      ShownStays(next, past + [events[0]], events[1..], m, index);
    }
  }

  predicate Looks(s: Store, e: Event) {
    e.Part? && Unsettled(RowsOf(s.rows, Of(e.message.id)), e.message)
  }

  lemma LooksStays(s: Store, f: Event, e: Event)
    requires ValidEvent(f) && ValidEvent(e) && Compatible(e, f) && Tied(s) && Looks(s, e)
    requires f.Part? ==> InTurn(s, f.message, f.index)
    ensures Looks(Exec(s, PlanFor(s, f).ops), e)
  {
    if f.Part? && f.message.id == e.message.id {
      StaysUnsettled(s, f.message, f.index);
    } else {
      PlanIsForItsId(s, f);
      OtherRows(s, PlanFor(s, f).ops, IdOf(f), Of(e.message.id));
    }
  }

  lemma PairCompatible(past: seq<Event>, events: seq<Event>, e: Event)
    requires Coherent(past + events) && events != [] && e in events[1..]
    ensures Compatible(e, events[0]) && Compatible(events[0], e) && e in events
  {
    var k :| 0 <= k < |events[1..]| && events[1..][k] == e;
    assert (past + events)[|past| + 1 + k] == e && (past + events)[|past|] == events[0];
  }

  /** The first event: what it shows when it is done is what the room shows in the end. */
  lemma FirstShows(s: Store, past: seq<Event>, events: seq<Event>)
    requires ValidEvents(past) && ValidEvents(events) && events != [] && Coherent(past + events) && Ordered(past, events)
    requires Tied(s) && AllDone(s, past) && Deliver(s, events).ok && Looks(s, events[0])
    ensures ValidEvent(events[0])
    ensures EventShown(Deliver(s, events).store, events[0].message, events[0].index) <==>
      EventDue(s, events[0].message, events[0].index)
  {
    hide PlanFor, Tied, EventShown, EventDue;
    var e := events[0];
    var next := Exec(s, PlanFor(s, e).ops);
    TiedIsWell(s);
    FirstInTurn(s, past, events);
    EventHandled(s, e.message, e.index);
    WholeKeepsTied(s, past, events);
    EventMovesOn(s, past, events);
    OrderedRest(past, events);
    forall f | f in events[1..] ensures Compatible(e, f) { PairCompatible(past, events, f); }
    ShownStays(next, past + [e], events[1..], e.message, e.index);
  }

  lemma {:induction false} DeliverShows(s: Store, past: seq<Event>, events: seq<Event>)
    requires ValidEvents(past) && ValidEvents(events) && Coherent(past + events) && Ordered(past, events)
    requires Tied(s) && AllDone(s, past) && Deliver(s, events).ok
    ensures forall e :: e in events && Looks(s, e) ==>
      (EventShown(Deliver(s, events).store, e.message, e.index) <==> EventDue(s, e.message, e.index))
    decreases |events|
  {
    hide PlanFor, Tied, EventShown, EventDue;
    if events != [] {
      var next := Exec(s, PlanFor(s, events[0]).ops);
      TiedIsWell(s);
      FirstInTurn(s, past, events);
      WholeKeepsTied(s, past, events);
      EventMovesOn(s, past, events);
      OrderedRest(past, events);
      DeliverShows(next, past + [events[0]], events[1..]);
      forall e | e in events && Looks(s, e)
        ensures EventShown(Deliver(s, events).store, e.message, e.index) <==> EventDue(s, e.message, e.index)
      {
        if e == events[0] {
          FirstShows(s, past, events);
        } else {
          PairCompatible(past, events, e);
          LooksStays(s, events[0], e);
          EventLeavesSame(s, events[0], e.message, e.index);
          SameDueAndShown(s, next, e.message, e.index);
        }
      }
    }
  }

  /** Every request the dispatch plans for the message is new, or its event already shows what it asks for. */
  predicate AllDue(s: Store, m: Message) {
    PastDue(s, m) && forall i: nat :: i < |m.parts| ==> PartDue(s, m, i)
  }

  /**
   What a dispatch shows, from any store a room's life can lead to: a message it looks at shows its
   parts and tombstones exactly when each request it plans for the message is new to the
   homeserver or was accepted for an event that already shows the content, and what it leaves alone
   shows it as well.
   */
  lemma DispatchShowsExactly(s: Store, notice: Option<Checkpoint>, messages: seq<Message>, m: Message)
    requires Tied(s) && Snapshot(messages) && Unblocked(s, messages) && m in messages
    requires Unsettled(RowsOf(s.rows, Of(m.id)), m)
    ensures ValidEvents(Dispatched(notice, messages)) && Deliver(s, Dispatched(notice, messages)).ok
    ensures Shows(Deliver(s, Dispatched(notice, messages)).store, m) <==> AllDue(s, m)
  {
    hide Tied, EventDue, EventShown, AllDue, Shows;
    var events := Dispatched(notice, messages);
    DispatchSucceeds(s, notice, messages);
    EventsAre(messages);
    DispatchedCoherent(notice, messages);
    DispatchedOrdered(notice, messages);
    assert [] + events == events;
    DeliverShows(s, [], events);
    var after := Deliver(s, events).store;
    forall i: nat | i < |m.parts| ensures EventShown(after, m, i) <==> EventDue(s, m, i) {
      assert Part(m, i) in events && Looks(s, Part(m, i));
    }
    ShowsByEvents(after, m);
    DueByEvents(s, m);
  }

  lemma ShowsByEvents(s: Store, m: Message)
    requires |m.parts| > 0
    ensures Shows(s, m) <==> forall i: nat :: i < |m.parts| ==> EventShown(s, m, i)
  {
    if forall i: nat :: i < |m.parts| ==> EventShown(s, m, i) {
      assert EventShown(s, m, 0);
      var rows := RowsOf(s.rows, Of(m.id));
      forall i | 0 <= i < |m.parts|
        ensures Find(rows, i).Some? && Visible(s.timeline, Find(rows, i).value.event) == Some(m.parts[i])
      {
        assert EventShown(s, m, i) && PartShown(s, m, i);
      }
      assert PastShown(s, m) && Shows(s, m);
    }
    if Shows(s, m) {
      assert PastShown(s, m);
      forall i: nat | i < |m.parts| ensures EventShown(s, m, i) { assert PartShown(s, m, i); }
    }
  }

  lemma DueByEvents(s: Store, m: Message)
    requires |m.parts| > 0
    ensures AllDue(s, m) <==> forall i: nat :: i < |m.parts| ==> EventDue(s, m, i)
  {
    hide PartDue, PastDue;
    if forall i: nat :: i < |m.parts| ==> EventDue(s, m, i) {
      assert EventDue(s, m, 0);
      forall i: nat | i < |m.parts| ensures PartDue(s, m, i) { assert EventDue(s, m, i); }
    }
    if AllDue(s, m) {
      forall i: nat | i < |m.parts| ensures EventDue(s, m, i) { assert PartDue(s, m, i); }
    }
  }

  /** A message that ends reconciliation is left as it is: its row, and what its event shows. */
  predicate LeftAlone(s: Store, after: Store, m: Message) {
    var rows := RowsOf(s.rows, Of(m.id));
    RowsOf(after.rows, Of(m.id)) == rows && forall r :: r in rows ==> Visible(after.timeline, r.event) == Visible(s.timeline, r.event)
  }

  lemma SoleRow(rows: seq<Row>, m: Message)
    requires Shaped(rows) && |m.parts| > 0 && Settled(rows, m)
    ensures |rows| == 1 && rows[0].part == 0
  {
    SettledPlan(rows, m, 0);
    FindIs(rows, 0);
  }

  lemma SameIsLeftAlone(s: Store, next: Store, m: Message)
    requires RowsTied(s, m.id) && |m.parts| > 0 && Settled(RowsOf(s.rows, Of(m.id)), m)
    requires SameFor(s, next, m, 0) && RowsOf(next.rows, Of(m.id)) == RowsOf(s.rows, Of(m.id))
    ensures LeftAlone(s, next, m)
  {
    SoleRow(RowsOf(s.rows, Of(m.id)), m);
    assert forall r :: r in RowsOf(s.rows, Of(m.id)) ==> InScope(m, 0, r.part);
  }

  lemma SettledPlansNothing(s: Store, m: Message, index: nat)
    requires RowsTied(s, m.id) && index < |m.parts| && Settled(RowsOf(s.rows, Of(m.id)), m)
    ensures Exec(s, PlanFor(s, Part(m, index)).ops) == s
  {
    SettledPlan(RowsOf(s.rows, Of(m.id)), m, index);
  }

  lemma SettledBySelf(s: Store, f: Event, m: Message)
    requires ValidEvent(f) && Tied(s) && |m.parts| > 0 && Settled(RowsOf(s.rows, Of(m.id)), m)
    requires f.Part? && f.message.id == m.id ==> f.message == m
    requires f.Part? ==> InTurn(s, f.message, f.index)
    ensures LeftAlone(s, Exec(s, PlanFor(s, f).ops), m)
  {
    hide PlanFor, Tied, RowsTied, SameFor, Settled, InTurn;
    TiedRows(s, m.id);
    if f.Part? && f.message.id == m.id {
      SettledPlansNothing(s, m, f.index);
    } else {
      EventLeavesSame(s, f, m, 0);
      PlanIsForItsId(s, f);
      OtherRows(s, PlanFor(s, f).ops, IdOf(f), Of(m.id));
      SameIsLeftAlone(s, Exec(s, PlanFor(s, f).ops), m);
    }
  }

  lemma {:induction false} SettledIsLeft(s: Store, past: seq<Event>, events: seq<Event>, m: Message)
    requires ValidEvents(past) && ValidEvents(events) && Coherent(past + events) && Ordered(past, events)
    requires Tied(s) && AllDone(s, past) && Deliver(s, events).ok
    requires |m.parts| > 0 && Settled(RowsOf(s.rows, Of(m.id)), m)
    requires forall f :: f in events && f.Part? && f.message.id == m.id ==> f.message == m
    ensures LeftAlone(s, Deliver(s, events).store, m)
    decreases |events|
  {
    hide PlanFor, Tied;
    if events != [] {
      TiedIsWell(s);
      FirstInTurn(s, past, events);
      SettledBySelf(s, events[0], m);
      WholeKeepsTied(s, past, events);
      EventMovesOn(s, past, events);
      OrderedRest(past, events);
      SettledIsLeft(Exec(s, PlanFor(s, events[0]).ops), past + [events[0]], events[1..], m);
    }
  }

  /** The other messages of the dispatch are left alone. */
  lemma DispatchLeavesSettled(s: Store, notice: Option<Checkpoint>, messages: seq<Message>, m: Message)
    requires Tied(s) && Snapshot(messages) && Unblocked(s, messages) && m in messages
    requires Settled(RowsOf(s.rows, Of(m.id)), m)
    ensures ValidEvents(Dispatched(notice, messages)) && LeftAlone(s, Deliver(s, Dispatched(notice, messages)).store, m)
  {
    hide Tied;
    var events := Dispatched(notice, messages);
    DispatchSucceeds(s, notice, messages);
    EventsAre(messages);
    DispatchedCoherent(notice, messages);
    DispatchedOrdered(notice, messages);
    assert [] + events == events;
    forall f | f in events && f.Part? && f.message.id == m.id ensures f.message == m { SameMessage(messages, f.message, m); }
    SettledIsLeft(s, [], events, m);
  }

  lemma EmptyIsTied()
    ensures Tied(Empty())
  {
  }

  /** A dispatch of a snapshot, cut off anywhere and given up. */
  lemma DispatchKeepsTied(s: Store, notice: Option<Checkpoint>, messages: seq<Message>, budget: nat)
    requires Tied(s) && Snapshot(messages)
    ensures ValidEvents(Dispatched(notice, messages)) && Tied(Attempt(s, Dispatched(notice, messages), budget))
  {
    hide Tied;
    var events := Dispatched(notice, messages);
    DispatchedCoherent(notice, messages);
    DispatchedOrdered(notice, messages);
    assert [] + events == events;
    AttemptKeepsTied(s, [], events, budget);
  }
}
