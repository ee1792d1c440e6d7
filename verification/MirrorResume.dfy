/**
 Resume equivalence with edits on: for a fixed source revision, dispatches cut off anywhere and followed by
 a full one reach exactly the store that one uninterrupted dispatch reaches.
 */
module MirrorResume {
  import opened Mirror

  // ---------------------------------------------------------------- executing operations

  lemma {:induction false} ExecAppend(s: Store, a: seq<Op>, b: seq<Op>)
    ensures Exec(s, a + b) == Exec(Exec(s, a), b)
    decreases |a|
  {
    if a == [] {
      assert a + b == b;
    } else {
      assert (a + b)[1..] == a[1..] + b && (a + b)[0] == a[0];
      ExecAppend(Apply(s, a[0]), a[1..], b);
    }
  }

  /** Requests the homeserver has already answered. */
  predicate Answered(s: Store, ops: seq<Op>) {
    forall op :: op in ops ==> op.Send? && op.key in s.accepted
  }

  predicate OnlySends(ops: seq<Op>) {
    forall op :: op in ops ==> op.Send?
  }

  lemma {:induction false} RepeatIsNothing(s: Store, ops: seq<Op>)
    requires Answered(s, ops)
    ensures Exec(s, ops) == s
    decreases |ops|
  {
    if ops != [] {
      assert Apply(s, ops[0]) == s;
      RepeatIsNothing(s, ops[1..]);
    }
  }

  /** An accepted transaction keeps its event. */
  lemma {:induction false} AcceptedStays(s: Store, ops: seq<Op>, key: Key)
    requires key in s.accepted
    ensures key in Exec(s, ops).accepted && Exec(s, ops).accepted[key] == s.accepted[key]
    decreases |ops|
  {
    if ops != [] { AcceptedStays(Apply(s, ops[0]), ops[1..], key); }
  }

  lemma {:induction false} SendsAreAnswered(s: Store, ops: seq<Op>)
    requires OnlySends(ops)
    ensures Answered(Exec(s, ops), ops) && Exec(s, ops).rows == s.rows
    decreases |ops|
  {
    if ops != [] {
      var next := Apply(s, ops[0]);
      SendsAreAnswered(next, ops[1..]);
      AcceptedStays(next, ops[1..], ops[0].key);
      assert forall op :: op in ops ==> op == ops[0] || op in ops[1..];
    }
  }

  /** Repeating requests already made before going on changes nothing. */
  lemma ResendAndGoOn(s: Store, a: seq<Op>, b: seq<Op>)
    requires Answered(s, a)
    ensures Exec(s, a + b) == Exec(s, b)
  {
    ExecAppend(s, a, b);
    RepeatIsNothing(s, a);
  }

  // ---------------------------------------------------------------- rows

  predicate Distinct(rows: seq<Row>) {
    forall i, j :: 0 <= i < j < |rows| ==> rows[i].part != rows[j].part
  }

  lemma {:induction false} SetMetaAt(rows: seq<Row>, part: nat, meta: Metadata)
    ensures |SetMeta(rows, part, meta)| == |rows|
    ensures forall k :: 0 <= k < |rows| ==>
      SetMeta(rows, part, meta)[k] == if rows[k].part == part then rows[k].(meta := meta) else rows[k]
  {
    if rows != [] { SetMetaAt(rows[1..], part, meta); }
  }

  lemma {:induction false} SetMetaAbsent(rows: seq<Row>, part: nat, meta: Metadata)
    requires forall r :: r in rows ==> r.part != part
    ensures SetMeta(rows, part, meta) == rows
  {
    if rows != [] {
      SetMetaAbsent(rows[1..], part, meta);
      assert rows == [rows[0]] + rows[1..];
    }
  }

  lemma {:induction false} FindIs(rows: seq<Row>, part: nat)
    ensures Find(rows, part).Some? ==> Find(rows, part).value in rows && Find(rows, part).value.part == part
    ensures Find(rows, part).None? ==> forall r :: r in rows ==> r.part != part
  {
    if rows != [] {
      FindIs(rows[1..], part);
      assert forall r :: r in rows ==> r == rows[0] || r in rows[1..];
    }
  }

  lemma {:induction false} FindAfterSet(rows: seq<Row>, part: nat, meta: Metadata, q: nat)
    ensures Find(SetMeta(rows, part, meta), q) ==
      if Find(rows, q).Some? && q == part then Some(Find(rows, q).value.(meta := meta)) else Find(rows, q)
  {
    if rows != [] { FindAfterSet(rows[1..], part, meta, q); }
  }

  lemma {:induction false} FindAfterAdd(rows: seq<Row>, row: Row, q: nat)
    ensures Find(rows + [row], q) ==
      if Find(rows, q).Some? then Find(rows, q) else if row.part == q then Some(row) else None
  {
    if rows == [] {
      assert rows + [row] == [row];
    } else {
      assert (rows + [row])[1..] == rows[1..] + [row];
      FindAfterAdd(rows[1..], row, q);
    }
  }

  lemma {:induction false} ScannedAll(rows: seq<Row>, m: Message)
    ensures |Scanned(rows, m)| <= |rows|
    ensures |Scanned(rows, m)| == |rows| <==> forall r :: r in rows ==> !Settling(r, m)
    ensures |Scanned(rows, m)| == |rows| ==> Scanned(rows, m) == rows
  {
    if rows != [] {
      ScannedAll(rows[1..], m);
      assert rows == [rows[0]] + rows[1..];
    }
  }

  lemma {:induction false} StaleAre(rows: seq<Row>, m: Message)
    ensures forall r :: r in Stale(rows, m) <==> r in rows && r.part >= |m.parts| && Differs(r, m, TOMBSTONE)
  {
    if rows != [] {
      StaleAre(rows[1..], m);
      assert forall r :: r in rows <==> r == rows[0] || r in rows[1..];
    }
  }

  /** Changing a live part's row, or adding one, does not touch the superseded parts. */
  lemma {:induction false} StaleUnaffected(rows: seq<Row>, m: Message, part: nat, meta: Metadata)
    requires part < |m.parts|
    ensures Stale(SetMeta(rows, part, meta), m) == Stale(rows, m)
  {
    if rows != [] { StaleUnaffected(rows[1..], m, part, meta); }
  }

  lemma {:induction false} StaleAfterAdd(rows: seq<Row>, m: Message, row: Row)
    requires row.part < |m.parts|
    ensures Stale(rows + [row], m) == Stale(rows, m)
  {
    if rows == [] {
      assert rows + [row] == [row];
    } else {
      assert (rows + [row])[1..] == rows[1..] + [row];
      StaleAfterAdd(rows[1..], m, row);
    }
  }

  // ---------------------------------------------------------------- one event, cut off anywhere

  /** No row ends reconciliation and every edit may be sent: the event saves what it sends. */
  predicate Normal(rows: seq<Row>, m: Message, index: nat)
    requires index < |m.parts|
  {
    && (forall r :: r in rows ==> !Settling(r, m))
    && (forall c :: c in Changes(rows, m, index) ==> c.row.mine)
  }

  lemma MineChanges(rows: seq<Row>, m: Message, index: nat)
    requires index < |m.parts|
    ensures (forall c :: c in Changes(rows, m, index) ==> c.row.mine) <==>
      AllMine(StaleFor(rows, m, index)) && (Outdated(rows, m, index) != [] ==> Outdated(rows, m, index)[0].row.mine)
  {
    var stale := StaleFor(rows, m, index);
    var tombstones := Tombstones(stale);
    TombstonesAre(stale);
    assert forall k :: 0 <= k < |stale| ==> tombstones[k] in Changes(rows, m, index);
    if Outdated(rows, m, index) != [] { assert Outdated(rows, m, index)[0] in Changes(rows, m, index); }
  }

  lemma NormalPlan(rows: seq<Row>, m: Message, index: nat)
    requires index < |m.parts|
    ensures var plan := Reconcile(rows, m, index);
      if Normal(rows, m, index) then
        plan == Plan(Edits(m, Changes(rows, m, index)) + Saves(m, Marked(rows, m, index))
                     + AdditionIf(rows, m, index), true)
      else
        OnlySends(plan.ops)
  {
    ScannedAll(rows, m);
    MineChanges(rows, m, index);
    EditsAreSends(m, Tombstones(Mine(StaleFor(rows, m, index))));
    EditsAreSends(m, Tombstones(StaleFor(rows, m, index)));
  }

  lemma {:induction false} EditsAreSends(m: Message, changes: seq<Change>)
    ensures |Edits(m, changes)| == |changes| == |Saves(m, changes)|
    ensures forall k :: 0 <= k < |changes| ==> Edits(m, changes)[k] == EditOf(m, changes[k]) && Saves(m, changes)[k] == SaveOf(m, changes[k])
    ensures OnlySends(Edits(m, changes))
  {
    if changes != [] { EditsAreSends(m, changes[1..]); }
  }

  lemma SavesSplit(m: Message, changes: seq<Change>, t: nat)
    requires t <= |changes|
    ensures Saves(m, changes) == Saves(m, changes[..t]) + Saves(m, changes[t..])
  {
    SavesPrefix(m, changes, t);
    EditsAreSends(m, changes);
    EditsAreSends(m, changes[t..]);
    assert Saves(m, changes) == Saves(m, changes)[..t] + Saves(m, changes)[t..];
    assert Saves(m, changes)[t..] == Saves(m, changes[t..]);
  }

  /** Edits made again are requests made before. */
  lemma EditsAgain(m: Message, again: seq<Change>, before: seq<Change>)
    requires forall c :: c in again ==> c in before
    ensures forall op :: op in Edits(m, again) ==> op in Edits(m, before)
  {
    EditsAreSends(m, again);
    EditsAreSends(m, before);
    forall op | op in Edits(m, again) ensures op in Edits(m, before) {
      var i :| 0 <= i < |again| && Edits(m, again)[i] == op;
      assert again[i] in before;
      var j :| 0 <= j < |before| && before[j] == again[i];
      assert Edits(m, before)[j] == op;
    }
  }

  lemma {:induction false} TombstonesAre(rows: seq<Row>)
    ensures |Tombstones(rows)| == |rows|
    ensures forall k :: 0 <= k < |rows| ==> Tombstones(rows)[k] == Change(rows[k], TOMBSTONE)
  {
    if rows != [] { TombstonesAre(rows[1..]); }
  }

  lemma {:induction false} MarkedAre(rows: seq<Row>, m: Message, index: nat)
    requires index < |m.parts|
    ensures forall c :: c in Marked(rows, m, index) <==> c.row in rows && MarkOf(c.row, m, index) == Some(c)
  {
    if rows != [] {
      MarkedAre(rows[1..], m, index);
      assert forall r :: r in rows <==> r == rows[0] || r in rows[1..];
    }
  }

  lemma FindMember(rows: seq<Row>, r: Row)
    requires Distinct(rows) && r in rows
    ensures Find(rows, r.part) == Some(r)
  {
    FindIs(rows, r.part);
    var q := Find(rows, r.part).value;
    var i :| 0 <= i < |rows| && rows[i] == r;
    var j :| 0 <= j < |rows| && rows[j] == q;
    assert i == j;
  }

  /** Whether in the order sent or in row order, the changes are the same. */
  lemma ChangesAreMarked(rows: seq<Row>, m: Message, index: nat)
    requires index < |m.parts| && Distinct(rows) && forall r :: r in rows ==> !Settling(r, m)
    ensures forall c :: c in Changes(rows, m, index) <==> c in Marked(rows, m, index)
  {
    var stale := StaleFor(rows, m, index);
    var outdated := Outdated(rows, m, index);
    ScannedAll(rows, m);
    StaleAre(rows, m);
    TombstonesAre(stale);
    MarkedAre(rows, m, index);
    FindIs(rows, index);
    forall c | c in Tombstones(stale) ensures c in Marked(rows, m, index) {
      var k :| 0 <= k < |stale| && Tombstones(stale)[k] == c;
      assert stale[k] in stale;
    }
    forall c | c in Marked(rows, m, index) ensures c in Changes(rows, m, index) {
      if c.row.part == index {
        FindMember(rows, c.row);
        assert outdated == [c];
      } else {
        assert c.row in stale;
        var k :| 0 <= k < |stale| && stale[k] == c.row;
        assert Tombstones(stale)[k] == c;
      }
    }
  }

  /** An edited row no longer ends reconciliation, nor calls for the edit again. */
  lemma EditedRowRests(m: Message, index: nat, c: Change)
    requires index < |m.parts| && !Settling(c.row, m) && MarkOf(c.row, m, index) == Some(c)
    ensures var row := c.row.(meta := EditedMeta(m, c)); !Settling(row, m) && MarkOf(row, m, index) == None
  {
  }

  /** Recording the first marked row's edit leaves exactly the others to be recorded. */
  lemma {:induction false} MarkedAfterSave(rows: seq<Row>, m: Message, index: nat)
    requires index < |m.parts| && Distinct(rows) && Marked(rows, m, index) != []
    requires forall r :: r in rows ==> !Settling(r, m)
    ensures var c := Marked(rows, m, index)[0];
      Marked(SetMeta(rows, c.row.part, EditedMeta(m, c)), m, index) == Marked(rows, m, index)[1..]
  {
    var c := Marked(rows, m, index)[0];
    var mark := MarkOf(rows[0], m, index);
    if mark.Some? {
      assert c == mark.value && c.row == rows[0];
      EditedRowRests(m, index, c);
      SetMetaAbsent(rows[1..], c.row.part, EditedMeta(m, c));
    } else {
      MarkedAre(rows[1..], m, index);
      assert c == Marked(rows[1..], m, index)[0];
      assert c.row in rows[1..];
      assert Distinct(rows[1..]);
      MarkedAfterSave(rows[1..], m, index);
    }
  }

  lemma SavedStaysUnsettled(rows: seq<Row>, m: Message, c: Change)
    requires |m.parts| > 0 && Distinct(rows) && forall r :: r in rows ==> !Settling(r, m)
    ensures var saved := SetMeta(rows, c.row.part, EditedMeta(m, c));
      Distinct(saved) && forall r :: r in saved ==> !Settling(r, m)
  {
    var saved := SetMeta(rows, c.row.part, EditedMeta(m, c));
    SetMetaAt(rows, c.row.part, EditedMeta(m, c));
    forall r | r in saved ensures !Settling(r, m) {
      var k :| 0 <= k < |saved| && saved[k] == r;
      assert rows[k] in rows;
    }
  }

  /** Recording the first marked row's edit: only changes called for before are still called for. */
  lemma NormalAfterSave(rows: seq<Row>, m: Message, index: nat)
    requires index < |m.parts| && Distinct(rows) && Normal(rows, m, index) && Marked(rows, m, index) != []
    ensures var c := Marked(rows, m, index)[0]; var saved := SetMeta(rows, c.row.part, EditedMeta(m, c));
      && Distinct(saved) && Normal(saved, m, index)
      && Marked(saved, m, index) == Marked(rows, m, index)[1..]
      && Find(saved, index).None? == Find(rows, index).None?
  {
    var c := Marked(rows, m, index)[0];
    var saved := SetMeta(rows, c.row.part, EditedMeta(m, c));
    SavedStaysUnsettled(rows, m, c);
    FindAfterSet(rows, c.row.part, EditedMeta(m, c), index);
    MarkedAfterSave(rows, m, index);
    ChangesAreMarked(rows, m, index);
    ChangesAreMarked(saved, m, index);
  }

  lemma {:induction false} SavedPrefix(s: Store, m: Message, index: nat, t: nat)
    requires index < |m.parts|
    requires var rows := RowsOf(s.rows, Of(m.id));
      Distinct(rows) && Normal(rows, m, index) && t <= |Marked(rows, m, index)|
    ensures var marked := Marked(RowsOf(s.rows, Of(m.id)), m, index);
      var next := Exec(s, Saves(m, marked[..t])); var saved := RowsOf(next.rows, Of(m.id));
      && Distinct(saved) && Normal(saved, m, index) && Marked(saved, m, index) == marked[t..]
      && Find(saved, index).None? == Find(RowsOf(s.rows, Of(m.id)), index).None?
      && next.accepted == s.accepted && next.timeline == s.timeline
    decreases t
  {
    var rows := RowsOf(s.rows, Of(m.id));
    var marked := Marked(rows, m, index);
    if t == 0 {
      assert marked[..0] == [] && marked[0..] == marked;
    } else {
      NormalAfterSave(rows, m, index);
      var next := Apply(s, SaveOf(m, marked[0]));
      assert RowsOf(next.rows, Of(m.id)) == SetMeta(rows, marked[0].row.part, EditedMeta(m, marked[0]));
      SavedPrefix(next, m, index, t - 1);
      TailSlices(marked, t);
      assert Saves(m, marked[..t]) == [SaveOf(m, marked[0])] + Saves(m, marked[1..][..t - 1]);
    }
  }

  lemma TailSlices(changes: seq<Change>, t: nat)
    requires 0 < t <= |changes|
    ensures changes[1..][..t - 1] == changes[..t][1..] && changes[1..][t - 1..] == changes[t..]
    ensures changes[..t][0] == changes[0]
  {
  }

  /** Nothing is left to do for the event but requests already answered. */
  predicate Done(s: Store, e: Event)
    requires ValidEvent(e)
  {
    PlanFor(s, e).ok && Answered(s, PlanFor(s, e).ops)
  }

  ghost predicate Well(s: Store) {
    forall id: Id :: Distinct(RowsOf(s.rows, id))
  }

  /** Cut off among its requests, an event plans and reaches the same again. */
  lemma CutAmongSends(s: Store, e: Event, k: nat)
    requires ValidEvent(e) && k <= |PlanFor(s, e).ops| && OnlySends(PlanFor(s, e).ops[..k])
    ensures var ops := PlanFor(s, e).ops; var cut := Exec(s, ops[..k]);
      PlanFor(cut, e) == PlanFor(s, e) && Exec(cut, ops) == Exec(s, ops)
  {
    var ops := PlanFor(s, e).ops;
    var cut := Exec(s, ops[..k]);
    SendsAreAnswered(s, ops[..k]);
    assert ops == ops[..k] + ops[k..];
    ResendAndGoOn(cut, ops[..k], ops[k..]);
    ExecAppend(s, ops[..k], ops[k..]);
  }

  /** The store of an event cut off among its row updates, after t of them. */
  function CutStore(s: Store, m: Message, index: nat, t: nat): Store
    requires index < |m.parts| && t <= |Marked(RowsOf(s.rows, Of(m.id)), m, index)|
  {
    var rows := RowsOf(s.rows, Of(m.id));
    Exec(Exec(s, Edits(m, Changes(rows, m, index))), Saves(m, Marked(rows, m, index)[..t]))
  }

  function AdditionIf(rows: seq<Row>, m: Message, index: nat): seq<Op>
    requires index < |m.parts|
  {
    if Find(rows, index).None? then Addition(m, index) else []
  }

  lemma RowsAfterCut(s: Store, m: Message, index: nat, t: nat)
    requires index < |m.parts|
    requires var rows := RowsOf(s.rows, Of(m.id));
      Distinct(rows) && Normal(rows, m, index) && t <= |Marked(rows, m, index)|
    ensures var rows := RowsOf(s.rows, Of(m.id)); var left := RowsOf(CutStore(s, m, index, t).rows, Of(m.id));
      && Normal(left, m, index) && Distinct(left) && Marked(left, m, index) == Marked(rows, m, index)[t..]
      && (forall c :: c in Changes(left, m, index) ==> c in Changes(rows, m, index))
      && AdditionIf(left, m, index) == AdditionIf(rows, m, index)
  {
    var rows := RowsOf(s.rows, Of(m.id));
    var changes := Changes(rows, m, index);
    EditsAreSends(m, changes);
    SendsAreAnswered(s, Edits(m, changes));
    SavedPrefix(Exec(s, Edits(m, changes)), m, index, t);
    ChangesAreMarked(rows, m, index);
    ChangesAreMarked(RowsOf(CutStore(s, m, index, t).rows, Of(m.id)), m, index);
  }

  lemma NormalOps(s: Store, m: Message, index: nat)
    requires index < |m.parts| && Normal(RowsOf(s.rows, Of(m.id)), m, index)
    ensures var rows := RowsOf(s.rows, Of(m.id)); var plan := PlanFor(s, Part(m, index));
      plan == Plan(Edits(m, Changes(rows, m, index)) + (Saves(m, Marked(rows, m, index)) + AdditionIf(rows, m, index)), true)
  {
    var rows := RowsOf(s.rows, Of(m.id));
    NormalPlan(rows, m, index);
    Regroup(Edits(m, Changes(rows, m, index)), Saves(m, Marked(rows, m, index)), AdditionIf(rows, m, index));
  }

  lemma Regroup(a: seq<Op>, b: seq<Op>, c: seq<Op>)
    ensures (a + b) + c == a + (b + c)
  {
  }

  /** Cut off among its row updates, an event has the rest of them left to do. */
  lemma CutAmongSaves(s: Store, m: Message, index: nat, t: nat)
    requires index < |m.parts|
    requires var rows := RowsOf(s.rows, Of(m.id));
      Distinct(rows) && Normal(rows, m, index) && t <= |Marked(rows, m, index)|
    ensures Resumes(s, CutStore(s, m, index, t), Part(m, index))
  {
    var rows := RowsOf(s.rows, Of(m.id));
    var changes := Changes(rows, m, index);
    var marked := Marked(rows, m, index);
    var left := RowsOf(CutStore(s, m, index, t).rows, Of(m.id));
    RowsAfterCut(s, m, index, t);
    NormalOps(s, m, index);
    NormalOps(CutStore(s, m, index, t), m, index);
    EditsAreSends(m, changes);
    EditsAgain(m, Changes(left, m, index), changes);
    SavesSplit(m, marked, t);
    var rest := Saves(m, marked[t..]) + AdditionIf(rows, m, index);
    Regroup(Saves(m, marked[..t]), Saves(m, marked[t..]), AdditionIf(rows, m, index));
    GoOnAfterSaves(s, Edits(m, changes), Saves(m, marked[..t]), Edits(m, Changes(left, m, index)), rest);
  }

  lemma GoOnAfterSaves(s: Store, edits: seq<Op>, saved: seq<Op>, again: seq<Op>, rest: seq<Op>)
    requires OnlySends(edits) && forall op :: op in again ==> op in edits
    ensures Exec(Exec(Exec(s, edits), saved), again + rest) == Exec(s, edits + (saved + rest))
  {
    var sent := Exec(s, edits);
    var cut := Exec(sent, saved);
    SendsAreAnswered(s, edits);
    forall op | op in again ensures op.Send? && op.key in cut.accepted {
      assert op in edits;
      AcceptedStays(sent, saved, op.key);
    }
    ResendAndGoOn(cut, again, rest);
    ExecAppend(s, edits, saved + rest);
    ExecAppend(sent, saved, rest);
  }

  lemma NothingMarked(rows: seq<Row>, m: Message, index: nat)
    requires index < |m.parts| && Distinct(rows) && forall r :: r in rows ==> !Settling(r, m)
    ensures Changes(rows, m, index) == [] <==> Marked(rows, m, index) == []
  {
    ChangesAreMarked(rows, m, index);
    if Changes(rows, m, index) != [] { assert Changes(rows, m, index)[0] in Marked(rows, m, index); }
    if Marked(rows, m, index) != [] { assert Marked(rows, m, index)[0] in Changes(rows, m, index); }
  }

  /** With every row update made, only a missing part's addition is left. */
  lemma AllSaved(s: Store, m: Message, index: nat)
    requires index < |m.parts|
    requires var rows := RowsOf(s.rows, Of(m.id)); Distinct(rows) && Normal(rows, m, index)
    ensures var rows := RowsOf(s.rows, Of(m.id));
      var all := Exec(Exec(s, Edits(m, Changes(rows, m, index))), Saves(m, Marked(rows, m, index)));
      var left := RowsOf(all.rows, Of(m.id));
      && PlanFor(all, Part(m, index)) == Plan(AdditionIf(rows, m, index), true)
      && Exec(all, AdditionIf(rows, m, index)) == Exec(s, PlanFor(s, Part(m, index)).ops)
      && Normal(left, m, index) && Distinct(left) && Changes(left, m, index) == [] && Marked(left, m, index) == []
      && AdditionIf(left, m, index) == AdditionIf(rows, m, index)
  {
    var marked := Marked(RowsOf(s.rows, Of(m.id)), m, index);
    var all := CutStore(s, m, index, |marked|);
    assert marked[..|marked|] == marked && marked[|marked|..] == [];
    CutAmongSaves(s, m, index, |marked|);
    RowsAfterCut(s, m, index, |marked|);
    NothingMarked(RowsOf(all.rows, Of(m.id)), m, index);
    NormalOps(all, m, index);
  }

  lemma ExecThree(s: Store, a: seq<Op>, b: seq<Op>, c: seq<Op>)
    ensures Exec(s, a + (b + c)) == Exec(Exec(Exec(s, a), b), c)
  {
    ExecAppend(s, a, b + c);
    ExecAppend(Exec(s, a), b, c);
  }

  /** Where a cut falls among an event's requests, row updates and addition. */
  lemma CutPoint(a: seq<Op>, b: seq<Op>, c: seq<Op>, k: nat)
    requires k <= |a| + |b| + |c|
    ensures (a + (b + c))[..k] ==
      if k <= |a| then a[..k] else if k <= |a| + |b| then a + (b[..k - |a|] + []) else a + (b + c[..k - |a| - |b|])
  {
  }

  lemma SavesPrefix(m: Message, changes: seq<Change>, t: nat)
    requires t <= |changes|
    ensures |Saves(m, changes)| == |changes| && Saves(m, changes)[..t] == Saves(m, changes[..t])
  {
    EditsAreSends(m, changes);
    EditsAreSends(m, changes[..t]);
  }

  /** What a cut must allow: planning again from it reaches what was to be reached. */
  predicate Resumes(s: Store, cut: Store, e: Event)
    requires ValidEvent(e)
  {
    PlanFor(cut, e).ok == PlanFor(s, e).ok && Exec(cut, PlanFor(cut, e).ops) == Exec(s, PlanFor(s, e).ops)
  }

  lemma CutDuringSends(s: Store, m: Message, index: nat, k: nat)
    requires index < |m.parts|
    requires var rows := RowsOf(s.rows, Of(m.id)); Normal(rows, m, index) && k <= |Changes(rows, m, index)|
    ensures k <= |PlanFor(s, Part(m, index)).ops|
    ensures Resumes(s, Exec(s, PlanFor(s, Part(m, index)).ops[..k]), Part(m, index))
  {
    var rows := RowsOf(s.rows, Of(m.id));
    var changes := Changes(rows, m, index);
    NormalOps(s, m, index);
    EditsAreSends(m, changes);
    PrefixOfFirst(Edits(m, changes), Saves(m, Marked(rows, m, index)) + AdditionIf(rows, m, index), k);
    CutAmongSends(s, Part(m, index), k);
  }

  lemma PrefixOfFirst(a: seq<Op>, b: seq<Op>, k: nat)
    requires k <= |a|
    ensures (a + b)[..k] == a[..k]
    ensures OnlySends(a) ==> OnlySends(a[..k])
  {
  }

  lemma CutDuringSaves(s: Store, m: Message, index: nat, t: nat)
    requires index < |m.parts|
    requires var rows := RowsOf(s.rows, Of(m.id));
      Distinct(rows) && Normal(rows, m, index) && t <= |Marked(rows, m, index)|
    ensures var rows := RowsOf(s.rows, Of(m.id));
      Resumes(s, Exec(s, Edits(m, Changes(rows, m, index)) + (Saves(m, Marked(rows, m, index)[..t]) + [])), Part(m, index))
  {
    var rows := RowsOf(s.rows, Of(m.id));
    ExecThree(s, Edits(m, Changes(rows, m, index)), Saves(m, Marked(rows, m, index)[..t]), []);
    CutAmongSaves(s, m, index, t);
  }

  /** The part sent, its row not yet inserted. */
  lemma CutBeforeInsert(s: Store, m: Message, index: nat)
    requires index < |m.parts|
    requires var rows := RowsOf(s.rows, Of(m.id)); Distinct(rows) && Normal(rows, m, index) && Find(rows, index).None?
    ensures var rows := RowsOf(s.rows, Of(m.id));
      Resumes(s, Exec(s, Edits(m, Changes(rows, m, index)) + (Saves(m, Marked(rows, m, index)) + Addition(m, index)[..1])), Part(m, index))
  {
    var rows := RowsOf(s.rows, Of(m.id));
    var all := Exec(Exec(s, Edits(m, Changes(rows, m, index))), Saves(m, Marked(rows, m, index)));
    AllSaved(s, m, index);
    NormalOps(s, m, index);
    ExecThree(s, Edits(m, Changes(rows, m, index)), Saves(m, Marked(rows, m, index)), Addition(m, index)[..1]);
    AdditionSent(s, all, Part(m, index), Addition(m, index));
  }

  lemma AdditionSent(s: Store, all: Store, e: Event, ops: seq<Op>)
    requires ValidEvent(e) && PlanFor(all, e) == Plan(ops, true) && ops != [] && ops[0].Send?
    requires PlanFor(s, e).ok && Exec(all, ops) == Exec(s, PlanFor(s, e).ops)
    ensures Resumes(s, Exec(all, ops[..1]), e)
  {
    assert OnlySends(ops[..1]);
    CutAmongSends(all, e, 1);
  }

  lemma NormalCut(s: Store, m: Message, index: nat, k: nat)
    requires index < |m.parts| && k < |PlanFor(s, Part(m, index)).ops|
    requires var rows := RowsOf(s.rows, Of(m.id)); Distinct(rows) && Normal(rows, m, index)
    ensures Resumes(s, Exec(s, PlanFor(s, Part(m, index)).ops[..k]), Part(m, index))
  {
    var rows := RowsOf(s.rows, Of(m.id));
    var changes := Changes(rows, m, index);
    var marked := Marked(rows, m, index);
    NormalOps(s, m, index);
    EditsAreSends(m, changes);
    EditsAreSends(m, marked);
    CutPoint(Edits(m, changes), Saves(m, marked), AdditionIf(rows, m, index), k);
    if k <= |changes| {
      CutDuringSends(s, m, index, k);
    } else if k <= |changes| + |marked| {
      SavesPrefix(m, marked, k - |changes|);
      CutDuringSaves(s, m, index, k - |changes|);
    } else {
      assert Find(rows, index).None? && k - |changes| - |marked| == 1;
      CutBeforeInsert(s, m, index);
    }
  }

  /** Cut off anywhere, an event still plans to reach what it would have reached. */
  lemma CutPart(s: Store, m: Message, index: nat, k: nat)
    requires index < |m.parts| && Well(s) && k <= |PlanFor(s, Part(m, index)).ops|
    ensures Resumes(s, Exec(s, PlanFor(s, Part(m, index)).ops[..k]), Part(m, index))
  {
    var e := Part(m, index);
    var rows := RowsOf(s.rows, Of(m.id));
    NormalPlan(rows, m, index);
    if !Normal(rows, m, index) {
      CutAmongSends(s, e, k);
    } else if k < |PlanFor(s, e).ops| {
      NormalCut(s, m, index, k);
    } else {
      WholeResumes(s, e, k);
    }
  }

  lemma WholeResumes(s: Store, e: Event, k: nat)
    requires e.Part? && ValidEvent(e) && Well(s) && PlanFor(s, e).ok && k == |PlanFor(s, e).ops|
    ensures Resumes(s, Exec(s, PlanFor(s, e).ops[..k]), e)
  {
    var ops := PlanFor(s, e).ops;
    assert ops[..k] == ops;
    PartIsDone(s, e.message, e.index);
    RepeatIsNothing(Exec(s, ops), PlanFor(Exec(s, ops), e).ops);
  }

  /** An event that succeeds leaves nothing of itself to do. */
  lemma PartIsDone(s: Store, m: Message, index: nat)
    requires index < |m.parts| && Well(s) && PlanFor(s, Part(m, index)).ok
    ensures Done(Exec(s, PlanFor(s, Part(m, index)).ops), Part(m, index))
  {
    var e := Part(m, index);
    var rows := RowsOf(s.rows, Of(m.id));
    NormalPlan(rows, m, index);
    if Normal(rows, m, index) {
      var all := Exec(Exec(s, Edits(m, Changes(rows, m, index))), Saves(m, Marked(rows, m, index)));
      AllSaved(s, m, index);
      if Find(rows, index).None? {
        AdditionIsDone(all, m, index);
      } else {
        assert Exec(all, []) == all;
      }
    } else {
      SendsAreAnswered(s, PlanFor(s, e).ops);
    }
  }

  lemma AdditionIsDone(s: Store, m: Message, index: nat)
    requires index < |m.parts|
    requires var rows := RowsOf(s.rows, Of(m.id));
      && Distinct(rows) && Normal(rows, m, index) && Find(rows, index).None?
      && Changes(rows, m, index) == [] && Marked(rows, m, index) == []
    ensures Done(Exec(s, Addition(m, index)), Part(m, index))
  {
    var rows := RowsOf(s.rows, Of(m.id));
    var addition := Addition(m, index);
    var sent := Apply(s, addition[0]);
    var done := Apply(sent, addition[1]);
    assert Exec(s, addition) == done by {
      assert addition[1..] == [addition[1]] && [addition[1]][1..] == [];
      assert Exec(sent, [addition[1]]) == Exec(done, []);
    }
    var row := Row(index, sent.accepted[addition[0].key], true, NewMeta(m, index));
    assert RowsOf(done.rows, Of(m.id)) == rows + [row];
    AddedRowSettles(rows, m, index, row);
  }

  lemma AddedRowSettles(rows: seq<Row>, m: Message, index: nat, row: Row)
    requires index < |m.parts| && row.part == index && row.meta == NewMeta(m, index)
    requires Distinct(rows) && Normal(rows, m, index) && Changes(rows, m, index) == [] && Find(rows, index).None?
    ensures Reconcile(rows + [row], m, index) == Plan([], true)
  {
    ScannedAll(rows, m);
    TombstonesAre(StaleFor(rows, m, index));
    StaleAfterAdd(rows, m, row);
    FindAfterAdd(rows, row, index);
    ScannedAll(rows + [row], m);
    if Settling(row, m) {
      ScannedUpTo(rows, m, row);
      assert row in rows + [row];
    } else {
      FindIs(rows, index);
      assert forall r :: r in rows + [row] ==> r in rows || r == row;
      assert UpToDate(row, m, m.parts[index]);
      FinishedPlan(rows + [row], m, index);
    }
  }

  lemma {:induction false} ScannedUpTo(rows: seq<Row>, m: Message, row: Row)
    requires (forall r :: r in rows ==> !Settling(r, m)) && Settling(row, m)
    ensures Scanned(rows + [row], m) == rows
  {
    if rows == [] {
      assert rows + [row] == [row];
    } else {
      assert (rows + [row])[1..] == rows[1..] + [row];
      ScannedUpTo(rows[1..], m, row);
      assert rows == [rows[0]] + rows[1..];
    }
  }

  lemma BranchCut(s: Store, checkpoint: Checkpoint, k: nat)
    requires k <= |PlanFor(s, Branch(checkpoint)).ops|
    ensures var e := Branch(checkpoint); var ops := PlanFor(s, e).ops; var cut := Exec(s, ops[..k]);
      Resumes(s, cut, e) && (k == |ops| ==> Done(cut, e))
  {
    var e := Branch(checkpoint);
    var ops := PlanFor(s, e).ops;
    if k < 2 {
      CutAmongSends(s, e, k);
    } else {
      assert ops[..2] == ops && ops[1..] == [ops[1]] && [ops[1]][1..] == [];
      var sent := Apply(s, ops[0]);
      var done := Apply(sent, ops[1]);
      assert Exec(sent, [ops[1]]) == Exec(done, []) == done;
      assert RowsOf(done.rows, NoticeOf(checkpoint)) != [];
      assert PlanFor(done, e).ops == [];
    }
  }

  lemma EventCut(s: Store, e: Event, k: nat)
    requires ValidEvent(e) && Well(s) && k <= |PlanFor(s, e).ops|
    ensures Resumes(s, Exec(s, PlanFor(s, e).ops[..k]), e)
  {
    match e
    case Part(m, index) => CutPart(s, m, index, k);
    case Branch(checkpoint) => BranchCut(s, checkpoint, k);
  }

  lemma EventIsDone(s: Store, e: Event)
    requires ValidEvent(e) && Well(s) && PlanFor(s, e).ok
    ensures Done(Exec(s, PlanFor(s, e).ops), e)
  {
    match e
    case Part(m, index) => PartIsDone(s, m, index);
    case Branch(checkpoint) =>
      var ops := PlanFor(s, e).ops;
      assert ops[..|ops|] == ops;
      BranchCut(s, checkpoint, |ops|);
  }

  // ---------------------------------------------------------------- events do not undo one another

  /** Events of one dispatch: distinct, and one message per id. */
  predicate Compatible(e: Event, f: Event) {
    e != f && (e.Part? && f.Part? && e.message.id == f.message.id ==> e.message == f.message)
  }

  predicate OpsFor(ops: seq<Op>, id: Id) {
    forall op :: op in ops ==> op.Send? || op.id == id
  }

  lemma {:induction false} OtherRows(s: Store, ops: seq<Op>, id: Id, other: Id)
    requires OpsFor(ops, id) && other != id
    ensures RowsOf(Exec(s, ops).rows, other) == RowsOf(s.rows, other)
    decreases |ops|
  {
    if ops != [] { OtherRows(Apply(s, ops[0]), ops[1..], id, other); }
  }

  lemma SavesAreFor(m: Message, changes: seq<Change>)
    ensures OpsFor(Saves(m, changes), Of(m.id))
  {
    EditsAreSends(m, changes);
  }

  lemma ThreeFor(a: seq<Op>, b: seq<Op>, c: seq<Op>, id: Id)
    requires OpsFor(a, id) && OpsFor(b, id) && OpsFor(c, id)
    ensures OpsFor(a + (b + c), id)
  {
  }

  lemma PlanIsForItsId(s: Store, e: Event)
    requires ValidEvent(e)
    ensures OpsFor(PlanFor(s, e).ops, IdOf(e))
  {
    if e.Part? {
      var m := e.message;
      var rows := RowsOf(s.rows, Of(m.id));
      NormalPlan(rows, m, e.index);
      if Normal(rows, m, e.index) {
        NormalOps(s, m, e.index);
        EditsAreSends(m, Changes(rows, m, e.index));
        SavesAreFor(m, Marked(rows, m, e.index));
        ThreeFor(Edits(m, Changes(rows, m, e.index)), Saves(m, Marked(rows, m, e.index)), AdditionIf(rows, m, e.index), Of(m.id));
      }
    }
  }

  /** Where an update or addition by another part leaves a finished part of the same message. */
  predicate Finished(rows: seq<Row>, m: Message, index: nat)
    requires index < |m.parts|
  {
    && (forall r :: r in rows ==> !Settling(r, m))
    && Find(rows, index).Some? && UpToDate(Find(rows, index).value, m, m.parts[index])
    && (index == 0 ==> Stale(rows, m) == [])
  }

  lemma FinishedPlan(rows: seq<Row>, m: Message, index: nat)
    requires index < |m.parts| && Distinct(rows) && Finished(rows, m, index)
    ensures Reconcile(rows, m, index) == Plan([], true)
  {
    ScannedAll(rows, m);
    assert Changes(rows, m, index) == [];
    NothingMarked(rows, m, index);
  }

  /** A part with nothing left to do, in a message no row of which ends reconciliation, is finished. */
  lemma DoneIsFinished(s: Store, m: Message, index: nat)
    requires index < |m.parts| && Distinct(RowsOf(s.rows, Of(m.id)))
    requires forall r :: r in RowsOf(s.rows, Of(m.id)) ==> !Settling(r, m)
    ensures Done(s, Part(m, index)) ==> Finished(RowsOf(s.rows, Of(m.id)), m, index)
  {
    var rows := RowsOf(s.rows, Of(m.id));
    var changes := Changes(rows, m, index);
    ScannedAll(rows, m);
    NormalPlan(rows, m, index);
    EditsAreSends(m, Marked(rows, m, index));
    DoneChangesNothing(s, m, index);
    TombstonesAre(StaleFor(rows, m, index));
    if changes == [] && Find(rows, index).None? {
      NormalOps(s, m, index);
      assert Addition(m, index)[1] in PlanFor(s, Part(m, index)).ops;
    }
  }

  lemma DoneChangesNothing(s: Store, m: Message, index: nat)
    requires index < |m.parts| && Distinct(RowsOf(s.rows, Of(m.id)))
    requires forall r :: r in RowsOf(s.rows, Of(m.id)) ==> !Settling(r, m)
    ensures Done(s, Part(m, index)) ==> Changes(RowsOf(s.rows, Of(m.id)), m, index) == []
  {
    var rows := RowsOf(s.rows, Of(m.id));
    ScannedAll(rows, m);
    MineChanges(rows, m, index);
    NothingMarked(rows, m, index);
    if PlanFor(s, Part(m, index)).ok && Marked(rows, m, index) != [] {
      NormalOps(s, m, index);
      EditsAreSends(m, Marked(rows, m, index));
      assert Saves(m, Marked(rows, m, index))[0] in PlanFor(s, Part(m, index)).ops;
    }
  }

  lemma {:induction false} FinishedAfterSaves(s: Store, m: Message, index: nat, changes: seq<Change>)
    requires index < |m.parts| && Distinct(RowsOf(s.rows, Of(m.id)))
    requires Finished(RowsOf(s.rows, Of(m.id)), m, index)
    requires forall c :: c in changes ==> c.row.part != index && (index == 0 ==> c.row.part < |m.parts|)
    ensures Finished(RowsOf(Exec(s, Saves(m, changes)).rows, Of(m.id)), m, index)
    decreases |changes|
  {
    if changes != [] {
      var rows := RowsOf(s.rows, Of(m.id));
      var c := changes[0];
      SavedStaysUnsettled(rows, m, c);
      FindAfterSet(rows, c.row.part, EditedMeta(m, c), index);
      if index == 0 { StaleUnaffected(rows, m, c.row.part, EditedMeta(m, c)); }
      FinishedAfterSaves(Apply(s, SaveOf(m, c)), m, index, changes[1..]);
    }
  }

  lemma FinishedAfterAdd(rows: seq<Row>, m: Message, index: nat, row: Row)
    requires index < |m.parts| && Finished(rows, m, index)
    requires row.part < |m.parts| && row.part != index && row.meta == NewMeta(m, row.part)
    ensures Finished(rows + [row], m, index)
  {
    FindAfterAdd(rows, row, index);
    StaleAfterAdd(rows, m, row);
    assert forall r :: r in rows + [row] ==> r in rows || r == row;
  }

  /** Every row an event updates is its own part's or, for part 0, one past the last part. */
  lemma MarkedParts(rows: seq<Row>, m: Message, index: nat)
    requires index < |m.parts|
    ensures forall c :: c in Marked(rows, m, index) ==> c.row.part == index || (index == 0 && c.row.part >= |m.parts|)
  {
    MarkedAre(rows, m, index);
  }

  /** Whatever part of another event of the dispatch is carried out, a done event stays done. */
  lemma CutKeepsDone(s: Store, e: Event, f: Event, k: nat)
    requires ValidEvent(e) && ValidEvent(f) && Compatible(e, f) && Well(s) && Done(s, e)
    requires k <= |PlanFor(s, f).ops|
    ensures Done(Exec(s, PlanFor(s, f).ops[..k]), e)
  {
    var ops := PlanFor(s, f).ops;
    var cut := Exec(s, ops[..k]);
    if IdOf(e) != IdOf(f) {
      PlanIsForItsId(s, f);
      OtherRows(s, ops[..k], IdOf(f), IdOf(e));
      StillAnswered(s, ops[..k], PlanFor(s, e).ops);
    } else {
      assert e.Part? && f.Part?;
      PartKeepsDone(s, e.message, e.index, f.index, k);
    }
  }

  lemma StillAnswered(s: Store, ops: seq<Op>, answered: seq<Op>)
    requires Answered(s, answered)
    ensures Answered(Exec(s, ops), answered)
  {
    forall op | op in answered ensures op.Send? && op.key in Exec(s, ops).accepted {
      AcceptedStays(s, ops, op.key);
    }
  }

  lemma PartKeepsDone(s: Store, m: Message, index: nat, other: nat, k: nat)
    requires index < |m.parts| && other < |m.parts| && index != other
    requires Well(s) && Done(s, Part(m, index)) && k <= |PlanFor(s, Part(m, other)).ops|
    ensures Done(Exec(s, PlanFor(s, Part(m, other)).ops[..k]), Part(m, index))
  {
    var rows := RowsOf(s.rows, Of(m.id));
    var ops := PlanFor(s, Part(m, other)).ops;
    NormalPlan(rows, m, other);
    if !Normal(rows, m, other) {
      SendsAreAnswered(s, ops[..k]);
      StillAnswered(s, ops[..k], PlanFor(s, Part(m, index)).ops);
    } else {
      DoneIsFinished(s, m, index);
      FinishedAfterCut(s, m, index, other, k);
      CutIsWell(s, Part(m, other), k);
      FinishedPlan(RowsOf(Exec(s, ops[..k]).rows, Of(m.id)), m, index);
    }
  }

  lemma FinishedAfterCut(s: Store, m: Message, index: nat, other: nat, k: nat)
    requires index < |m.parts| && other < |m.parts| && index != other
    requires k <= |PlanFor(s, Part(m, other)).ops|
    requires var rows := RowsOf(s.rows, Of(m.id)); Distinct(rows) && Normal(rows, m, other) && Finished(rows, m, index)
    ensures Finished(RowsOf(Exec(s, PlanFor(s, Part(m, other)).ops[..k]).rows, Of(m.id)), m, index)
  {
    NormalOps(s, m, other);
    EditsAreSends(m, Changes(RowsOf(s.rows, Of(m.id)), m, other));
    EditsAreSends(m, Marked(RowsOf(s.rows, Of(m.id)), m, other));
    FinishedAfterPrefix(s, m, index, other, k);
  }

  lemma FinishedAfterPrefix(s: Store, m: Message, index: nat, other: nat, k: nat)
    requires index < |m.parts| && other < |m.parts| && index != other
    requires var rows := RowsOf(s.rows, Of(m.id)); Distinct(rows) && Finished(rows, m, index)
    requires var rows := RowsOf(s.rows, Of(m.id));
      k <= |Changes(rows, m, other)| + |Marked(rows, m, other)| + |AdditionIf(rows, m, other)|
    ensures var rows := RowsOf(s.rows, Of(m.id)); var changes := Changes(rows, m, other); var marked := Marked(rows, m, other);
      && |Edits(m, changes)| == |changes| && |Saves(m, marked)| == |marked|
      && Finished(RowsOf(Exec(s, (Edits(m, changes) + (Saves(m, marked) + AdditionIf(rows, m, other)))[..k]).rows, Of(m.id)), m, index)
  {
    var rows := RowsOf(s.rows, Of(m.id));
    var changes := Changes(rows, m, other);
    var marked := Marked(rows, m, other);
    EditsAreSends(m, changes);
    EditsAreSends(m, marked);
    CutPoint(Edits(m, changes), Saves(m, marked), AdditionIf(rows, m, other), k);
    if k <= |changes| {
      SendsAreAnswered(s, Edits(m, changes)[..k]);
    } else if k <= |changes| + |marked| {
      SavesPrefix(m, marked, k - |changes|);
      FinishedAfterSome(s, m, index, other, k - |changes|);
    } else {
      FinishedAfterAll(s, m, index, other, k - |changes| - |marked|);
    }
  }

  lemma FinishedAfterAll(s: Store, m: Message, index: nat, other: nat, j: nat)
    requires index < |m.parts| && other < |m.parts| && index != other && 0 < j <= 2
    requires var rows := RowsOf(s.rows, Of(m.id)); Distinct(rows) && Finished(rows, m, index) && Find(rows, other).None?
    ensures var rows := RowsOf(s.rows, Of(m.id)); var changes := Changes(rows, m, other); var marked := Marked(rows, m, other);
      Finished(RowsOf(Exec(s, Edits(m, changes) + (Saves(m, marked) + Addition(m, other)[..j])).rows, Of(m.id)), m, index)
  {
    var rows := RowsOf(s.rows, Of(m.id));
    var edits := Edits(m, Changes(rows, m, other));
    var marked := Marked(rows, m, other);
    ExecThree(s, edits, Saves(m, marked), Addition(m, other)[..j]);
    assert marked[..|marked|] == marked;
    FinishedAfterSome(s, m, index, other, |marked|);
    ExecThree(s, edits, Saves(m, marked), []);
    assert Exec(Exec(Exec(s, edits), Saves(m, marked)), []) == Exec(Exec(s, edits), Saves(m, marked));
    FinishedAfterAddition(Exec(Exec(s, edits), Saves(m, marked)), m, index, other, j);
  }

  lemma FinishedAfterSome(s: Store, m: Message, index: nat, other: nat, t: nat)
    requires index < |m.parts| && other < |m.parts| && index != other
    requires var rows := RowsOf(s.rows, Of(m.id)); Distinct(rows) && Finished(rows, m, index)
    requires t <= |Marked(RowsOf(s.rows, Of(m.id)), m, other)|
    ensures var rows := RowsOf(s.rows, Of(m.id)); var changes := Changes(rows, m, other); var marked := Marked(rows, m, other);
      Finished(RowsOf(Exec(s, Edits(m, changes) + (Saves(m, marked[..t]) + [])).rows, Of(m.id)), m, index)
  {
    var rows := RowsOf(s.rows, Of(m.id));
    var edits := Edits(m, Changes(rows, m, other));
    var marked := Marked(rows, m, other);
    EditsAreSends(m, Changes(rows, m, other));
    SendsAreAnswered(s, edits);
    MarkedParts(rows, m, other);
    FinishedAfterSaves(Exec(s, edits), m, index, marked[..t]);
    ExecThree(s, edits, Saves(m, marked[..t]), []);
  }

  lemma FinishedAfterAddition(s: Store, m: Message, index: nat, other: nat, j: nat)
    requires index < |m.parts| && other < |m.parts| && index != other && 0 < j <= 2
    requires Finished(RowsOf(s.rows, Of(m.id)), m, index)
    ensures Finished(RowsOf(Exec(s, Addition(m, other)[..j]).rows, Of(m.id)), m, index)
  {
    var addition := Addition(m, other);
    var sent := Apply(s, addition[0]);
    if j == 1 {
      assert addition[..1][1..] == [];
      assert Exec(s, addition[..1]) == Exec(sent, []);
    } else {
      var done := Apply(sent, addition[1]);
      assert addition[..2] == addition && addition[1..] == [addition[1]] && [addition[1]][1..] == [];
      assert Exec(sent, [addition[1]]) == Exec(done, []);
      var row := Row(other, sent.accepted[addition[0].key], true, NewMeta(m, other));
      FinishedAfterAdd(RowsOf(s.rows, Of(m.id)), m, index, row);
    }
  }

  // ---------------------------------------------------------------- resume equivalence

  lemma {:induction false} OpsKeepWell(s: Store, ops: seq<Op>)
    requires Well(s) && InsertsNew(s.rows, ops)
    ensures Well(Exec(s, ops))
    decreases |ops|
  {
    if ops != [] {
      var next := Apply(s, ops[0]);
      forall id: Id ensures Distinct(RowsOf(next.rows, id)) {
        assert Distinct(RowsOf(s.rows, id));
        if ops[0].Save? && ops[0].id == id { SetMetaAt(RowsOf(s.rows, id), ops[0].part, ops[0].meta); }
      }
      InsertsStillNew(s, ops);
      OpsKeepWell(next, ops[1..]);
    }
  }

  /** At most the last operation inserts, and it inserts a part that has no row. */
  predicate InsertsNew(rows: map<Id, seq<Row>>, ops: seq<Op>) {
    forall k :: 0 <= k < |ops| && ops[k].Insert? ==>
      k == |ops| - 1 && forall r :: r in RowsOf(rows, ops[k].id) ==> r.part != ops[k].part
  }

  lemma InsertsStillNew(s: Store, ops: seq<Op>)
    requires ops != [] && InsertsNew(s.rows, ops)
    ensures InsertsNew(Apply(s, ops[0]).rows, ops[1..])
  {
    var next := Apply(s, ops[0]);
    forall k | 0 <= k < |ops[1..]| && ops[1..][k].Insert?
      ensures k == |ops[1..]| - 1 && forall r :: r in RowsOf(next.rows, ops[1..][k].id) ==> r.part != ops[1..][k].part
    {
      assert ops[k + 1].Insert?;
      if ops[0].Save? { SetMetaAt(RowsOf(s.rows, ops[0].id), ops[0].part, ops[0].meta); }
    }
  }

  predicate NoInserts(ops: seq<Op>) {
    forall op :: op in ops ==> !op.Insert?
  }

  lemma LastMayInsert(rows: map<Id, seq<Row>>, a: seq<Op>, b: seq<Op>, c: seq<Op>, k: nat)
    requires NoInserts(a) && NoInserts(b) && InsertsNew(rows, c) && k <= |a| + |b| + |c|
    ensures InsertsNew(rows, (a + (b + c))[..k])
  {
    var all := a + (b + c);
    forall j | 0 <= j < k && all[j].Insert?
      ensures j == k - 1 && forall r :: r in RowsOf(rows, all[j].id) ==> r.part != all[j].part
    {
      assert forall i :: 0 <= i < |a| ==> all[i] == a[i];
      assert forall i :: |a| <= i < |a| + |b| ==> all[i] == b[i - |a|];
      assert all[j] == c[j - |a| - |b|];
    }
  }

  lemma PartInsertsNew(s: Store, m: Message, index: nat, k: nat)
    requires index < |m.parts| && k <= |PlanFor(s, Part(m, index)).ops|
    ensures InsertsNew(s.rows, PlanFor(s, Part(m, index)).ops[..k])
  {
    var rows := RowsOf(s.rows, Of(m.id));
    NormalPlan(rows, m, index);
    if !Normal(rows, m, index) {
      assert NoInserts(PlanFor(s, Part(m, index)).ops);
    } else {
      var changes := Changes(rows, m, index);
      NormalOps(s, m, index);
      EditsAreSends(m, changes);
      EditsAreSends(m, Marked(rows, m, index));
      FindIs(rows, index);
      LastMayInsert(s.rows, Edits(m, changes), Saves(m, Marked(rows, m, index)), AdditionIf(rows, m, index), k);
    }
  }

  lemma PlanInsertsNew(s: Store, e: Event, k: nat)
    requires ValidEvent(e) && k <= |PlanFor(s, e).ops|
    ensures InsertsNew(s.rows, PlanFor(s, e).ops[..k])
  {
    if e.Part? { PartInsertsNew(s, e.message, e.index, k); }
  }

  lemma CutIsWell(s: Store, e: Event, k: nat)
    requires ValidEvent(e) && Well(s) && k <= |PlanFor(s, e).ops|
    ensures Well(Exec(s, PlanFor(s, e).ops[..k]))
  {
    PlanInsertsNew(s, e, k);
    OpsKeepWell(s, PlanFor(s, e).ops[..k]);
  }

  /** The events of one dispatch are pairwise compatible. */
  predicate Coherent(events: seq<Event>) {
    forall i, j :: 0 <= i < |events| && 0 <= j < |events| && i != j ==> Compatible(events[i], events[j])
  }

  predicate AllDone(s: Store, events: seq<Event>)
    requires ValidEvents(events)
  {
    forall e :: e in events ==> Done(s, e)
  }

  lemma DoneFirst(s: Store, e: Event, events: seq<Event>)
    requires ValidEvents([e] + events) && ValidEvent(e) && ValidEvents(events) && Done(s, e)
    ensures Deliver(s, [e] + events) == Deliver(s, events)
  {
    RepeatIsNothing(s, PlanFor(s, e).ops);
    assert ([e] + events)[0] == e && ([e] + events)[1..] == events;
  }

  lemma FirstOfPast(past: seq<Event>, events: seq<Event>)
    requires past != [] && ValidEvents(past) && ValidEvents(events)
    ensures ValidEvent(past[0]) && ValidEvents(past[1..]) && ValidEvents(past[1..] + events)
    ensures past + events == [past[0]] + (past[1..] + events) && ValidEvents([past[0]] + (past[1..] + events))
  {
    assert past[0] in past;
  }

  lemma {:induction false} DoneDelivers(s: Store, past: seq<Event>, events: seq<Event>)
    requires ValidEvents(past) && ValidEvents(events) && AllDone(s, past)
    ensures ValidEvents(past + events) && Deliver(s, past + events) == Deliver(s, events)
    decreases |past|
  {
    if past == [] {
      assert past + events == events;
    } else {
      FirstOfPast(past, events);
      assert past[0] in past && AllDone(s, past[1..]);
      DoneDelivers(s, past[1..], events);
      DoneFirst(s, past[0], past[1..] + events);
    }
  }

  lemma AllStayDone(s: Store, past: seq<Event>, events: seq<Event>, k: nat)
    requires ValidEvents(past) && ValidEvents(events) && Coherent(past + events) && events != []
    requires Well(s) && AllDone(s, past) && k <= |PlanFor(s, events[0]).ops|
    ensures AllDone(Exec(s, PlanFor(s, events[0]).ops[..k]), past)
  {
    forall e | e in past ensures Done(Exec(s, PlanFor(s, events[0]).ops[..k]), e) {
      var i :| 0 <= i < |past| && past[i] == e;
      assert (past + events)[i] == e && (past + events)[|past|] == events[0];
      CutKeepsDone(s, e, events[0], k);
    }
  }

  /** One event of a dispatch that goes on: it is done, and so are the earlier ones. */
  lemma EventMovesOn(s: Store, past: seq<Event>, events: seq<Event>)
    requires ValidEvents(past) && ValidEvents(events) && Coherent(past + events) && events != []
    requires Well(s) && AllDone(s, past) && PlanFor(s, events[0]).ok
    ensures var next := Exec(s, PlanFor(s, events[0]).ops);
      && Well(next) && ValidEvents(past + [events[0]]) && AllDone(next, past + [events[0]])
      && past + events == (past + [events[0]]) + events[1..]
  {
    var plan := PlanFor(s, events[0]);
    assert plan.ops[..|plan.ops|] == plan.ops;
    AllStayDone(s, past, events, |plan.ops|);
    CutIsWell(s, events[0], |plan.ops|);
    EventIsDone(s, events[0]);
  }

  /** An event cut off, or one that cannot be completed, with the earlier events done. */
  lemma CutResumes(s: Store, past: seq<Event>, events: seq<Event>, k: nat)
    requires ValidEvents(past) && ValidEvents(events) && Coherent(past + events) && events != []
    requires Well(s) && AllDone(s, past) && k <= |PlanFor(s, events[0]).ops|
    ensures var cut := Exec(s, PlanFor(s, events[0]).ops[..k]);
      Well(cut) && ValidEvents(past + events) && Deliver(cut, past + events) == Deliver(s, events)
  {
    AllStayDone(s, past, events, k);
    CutIsWell(s, events[0], k);
    DoneDelivers(Exec(s, PlanFor(s, events[0]).ops[..k]), past, events);
    EventCut(s, events[0], k);
  }

  /**
   After an attempt cut off anywhere, with its earlier events done, delivering all the events
   again has the same outcome as going on from where the attempt began.
   */
  lemma {:induction false} AttemptResumes(s: Store, past: seq<Event>, events: seq<Event>, budget: nat)
    requires ValidEvents(past) && ValidEvents(events) && Coherent(past + events)
    requires Well(s) && AllDone(s, past)
    ensures ValidEvents(past + events) && Well(Attempt(s, events, budget))
    ensures Deliver(Attempt(s, events, budget), past + events) == Deliver(s, events)
    decreases |events|
  {
    if events == [] {
      DoneDelivers(s, past, events);
    } else {
      var plan := PlanFor(s, events[0]);
      if budget < |plan.ops| {
        CutResumes(s, past, events, budget);
      } else if !plan.ok {
        assert plan.ops[..|plan.ops|] == plan.ops;
        CutResumes(s, past, events, |plan.ops|);
      } else {
        EventMovesOn(s, past, events);
        AttemptResumes(Exec(s, plan.ops), past + [events[0]], events[1..], budget - |plan.ops|);
      }
    }
  }

  function Attempts(s: Store, events: seq<Event>, budgets: seq<nat>): Store
    requires ValidEvents(events)
  {
    if budgets == [] then s
    else Attempt(Attempts(s, events, budgets[..|budgets| - 1]), events, budgets[|budgets| - 1])
  }

  /**
   Resume equivalence: any number of dispatches of one revision, each cut off anywhere, followed
   by a full one, end in the very store (rows, accepted transactions and timeline) of one
   uninterrupted dispatch.
   */
  lemma {:induction false} ResumeEquivalence(s: Store, events: seq<Event>, budgets: seq<nat>)
    requires Well(s) && ValidEvents(events) && Coherent(events)
    ensures Well(Attempts(s, events, budgets))
    ensures Deliver(Attempts(s, events, budgets), events) == Deliver(s, events)
  {
    if budgets != [] {
      var before := Attempts(s, events, budgets[..|budgets| - 1]);
      ResumeEquivalence(s, events, budgets[..|budgets| - 1]);
      assert [] + events == events;
      AttemptResumes(before, [], events, budgets[|budgets| - 1]);
    }
  }

  lemma {:induction false} DeliverIsAttempt(s: Store, events: seq<Event>)
    requires ValidEvents(events) && Well(s)
    ensures exists enough: nat :: Attempt(s, events, enough) == Deliver(s, events).store
    ensures Well(Deliver(s, events).store)
    decreases |events|
  {
    if events == [] {
      assert Attempt(s, events, 0) == s;
    } else {
      var plan := PlanFor(s, events[0]);
      assert plan.ops[..|plan.ops|] == plan.ops;
      CutIsWell(s, events[0], |plan.ops|);
      if plan.ok {
        DeliverIsAttempt(Exec(s, plan.ops), events[1..]);
        var rest: nat :| Attempt(Exec(s, plan.ops), events[1..], rest) == Deliver(s, events).store;
        assert Attempt(s, events, rest + |plan.ops|) == Deliver(s, events).store;
      } else {
        assert Attempt(s, events, |plan.ops|) == Deliver(s, events).store;
      }
    }
  }

  /** Idempotence: a second dispatch of the same revision sends nothing and changes nothing. */
  lemma DeliverTwice(s: Store, events: seq<Event>)
    requires Well(s) && ValidEvents(events) && Coherent(events)
    ensures Deliver(Deliver(s, events).store, events) == Deliver(s, events)
  {
    DeliverIsAttempt(s, events);
    var enough: nat :| Attempt(s, events, enough) == Deliver(s, events).store;
    assert [] + events == events;
    AttemptResumes(s, [], events, enough);
  }
}
