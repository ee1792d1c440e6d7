/**
 The mirror as the program runs it, one durable operation after another: reconciledPartUpsert,
 applySourceEdit and branchState (pkg/connector/reconcile.go), messagePartUpsert and
 presentationUpsert (formatting.go), events (events.go), dispatch (connector.go) and the framework's
 handling of one event, with sync_edits on or off. The fuse is the number of durable
 operations that still take effect; the one after them fails, as does every later one.
 */
module MirrorCode {
  import opened Mirror
  import opened MirrorResume
  import opened MirrorEvents
  import opened MirrorPlain
  import opened MirrorOff
  import opened MirrorRoom

  /** The operations ran to their end, or until the fuse burnt out. */
  predicate Ran(before: Store, fuse: nat, ops: seq<Op>, after: Store, left: nat, ok: bool) {
    if |ops| <= fuse then ok && after == Exec(before, ops) && left == fuse - |ops|
    else !ok && after == Exec(before, ops[..fuse]) && left == 0
  }

  lemma RanOne(before: Store, fuse: nat, op: Op)
    requires fuse > 0
    ensures Ran(before, fuse, [op], Apply(before, op), fuse - 1, true)
  {
    assert [op][1..] == [];
  }

  lemma RanNone(before: Store, fuse: nat)
    ensures Ran(before, fuse, [], before, fuse, true)
  {
  }

  lemma RanOn(a: Store, fuse: nat, first: seq<Op>, b: Store, left: nat, rest: seq<Op>, c: Store, last: nat, ok: bool)
    requires Ran(a, fuse, first, b, left, true) && Ran(b, left, rest, c, last, ok)
    ensures Ran(a, fuse, first + rest, c, last, ok)
  {
    if ok {
      ExecAppend(a, first, rest);
    } else {
      assert (first + rest)[..fuse] == first + rest[..left];
      ExecAppend(a, first, rest[..left]);
    }
  }

  lemma RanOut(a: Store, fuse: nat, first: seq<Op>, b: Store, left: nat, rest: seq<Op>)
    requires Ran(a, fuse, first, b, left, false)
    ensures Ran(a, fuse, first + rest, b, left, false)
  {
    assert (first + rest)[..fuse] == first[..fuse];
  }

  /** What an upsert tells the framework to do next. */
  datatype Result = Failed | Result(goOn: bool, save: bool)

  /** A row as the upsert leaves it in memory. */
  function Touched(row: Row, m: Message, index: nat): Row
    requires index < |m.parts|
  {
    var mark := MarkOf(row, m, index);
    if mark.Some? then row.(meta := EditedMeta(m, mark.value)) else row
  }

  predicate Superseded(row: Row, m: Message, index: nat) {
    index == 0 && row.part >= |m.parts| && Differs(row, m, TOMBSTONE)
  }

  /** A row once scanned: a superseded one has been edited. */
  function ScannedRow(row: Row, m: Message, index: nat): Row {
    if Superseded(row, m, index) then row.(meta := EditedMeta(m, Change(row, TOMBSTONE))) else row
  }

  // ---------------------------------------------------------------- facts about the scan

  lemma {:induction false} StaleAfterOne(rows: seq<Row>, m: Message, row: Row)
    ensures Stale(rows + [row], m) == Stale(rows, m) + (if row.part >= |m.parts| && Differs(row, m, TOMBSTONE) then [row] else [])
  {
    if rows == [] {
      assert rows + [row] == [row];
    } else {
      assert (rows + [row])[1..] == rows[1..] + [row];
      StaleAfterOne(rows[1..], m, row);
    }
  }

  lemma {:induction false} EditsAfterOne(m: Message, changes: seq<Change>, c: Change)
    ensures Edits(m, changes + [c]) == Edits(m, changes) + [EditOf(m, c)]
    ensures Saves(m, changes + [c]) == Saves(m, changes) + [SaveOf(m, c)]
  {
    if changes == [] {
      assert changes + [c] == [c];
    } else {
      assert (changes + [c])[1..] == changes[1..] + [c];
      EditsAfterOne(m, changes[1..], c);
    }
  }

  lemma {:induction false} TombstonesAfterOne(rows: seq<Row>, row: Row)
    ensures Tombstones(rows + [row]) == Tombstones(rows) + [Change(row, TOMBSTONE)]
  {
    if rows == [] {
      assert rows + [row] == [row];
    } else {
      assert (rows + [row])[1..] == rows[1..] + [row];
      TombstonesAfterOne(rows[1..], row);
    }
  }

  lemma {:induction false} MarkedAfterOne(rows: seq<Row>, m: Message, index: nat, row: Row)
    requires index < |m.parts|
    ensures var mark := MarkOf(row, m, index);
      Marked(rows + [row], m, index) == Marked(rows, m, index) + (if mark.Some? then [mark.value] else [])
  {
    if rows == [] {
      assert rows + [row] == [row];
    } else {
      assert (rows + [row])[1..] == rows[1..] + [row];
      MarkedAfterOne(rows[1..], m, index, row);
    }
  }

  /** The scan stops at the first settling row. */
  lemma {:induction false} ScannedTo(rows: seq<Row>, m: Message, i: nat)
    requires i <= |rows| && (forall j :: 0 <= j < i ==> !Settling(rows[j], m))
    requires i < |rows| ==> Settling(rows[i], m)
    ensures Scanned(rows, m) == rows[..i]
  {
    if i > 0 {
      ScannedTo(rows[1..], m, i - 1);
      assert rows[..i] == [rows[0]] + rows[1..][..i - 1];
    }
  }

  lemma {:induction false} ScannedBeyond(rows: seq<Row>, m: Message, i: nat)
    requires i <= |rows| && (forall j :: 0 <= j < i ==> !Settling(rows[j], m))
    ensures rows[..i] <= Scanned(rows, m)
  {
    if i > 0 {
      ScannedBeyond(rows[1..], m, i - 1);
      assert rows[..i] == [rows[0]] + rows[1..][..i - 1];
    }
  }

  lemma {:induction false} StaleAppend(a: seq<Row>, b: seq<Row>, m: Message)
    ensures Stale(a + b, m) == Stale(a, m) + Stale(b, m)
  {
    if a == [] {
      assert a + b == b;
    } else {
      assert (a + b)[1..] == a[1..] + b;
      StaleAppend(a[1..], b, m);
    }
  }

  lemma {:induction false} MineUpTo(a: seq<Row>, b: seq<Row>)
    requires AllMine(a) && b != [] && !b[0].mine
    ensures Mine(a + b) == a && !AllMine(a + b)
  {
    if a == [] {
      assert a + b == b && b[0] in b;
    } else {
      assert (a + b)[1..] == a[1..] + b && b[0] in a + b;
      MineUpTo(a[1..], b);
      assert a == [a[0]] + a[1..];
    }
  }

  /** The superseded rows among the first i. */
  function StaleSoFar(rows: seq<Row>, m: Message, index: nat, i: nat): seq<Row>
    requires i <= |rows|
  {
    if index == 0 then Stale(rows[..i], m) else []
  }

  lemma StaleIsMore(rows: seq<Row>, m: Message, index: nat, i: nat)
    requires i <= |rows| && forall j :: 0 <= j < i ==> !Settling(rows[j], m)
    ensures StaleSoFar(rows, m, index, i) <= StaleFor(rows, m, index)
  {
    ScannedBeyond(rows, m, i);
    var scanned := Scanned(rows, m);
    assert scanned == rows[..i] + scanned[i..];
    StaleAppend(rows[..i], scanned[i..], m);
  }

  lemma {:induction false} MineAtLeast(a: seq<Row>, b: seq<Row>)
    requires AllMine(a) && a <= b
    ensures a <= Mine(b)
  {
    if a != [] {
      assert a[0] in a;
      MineAtLeast(a[1..], b[1..]);
    }
  }

  lemma EditsOfPrefix(m: Message, a: seq<Row>, b: seq<Row>)
    requires a <= b
    ensures Edits(m, Tombstones(a)) <= Edits(m, Tombstones(b))
  {
    TombstonesAre(a);
    TombstonesAre(b);
    EditsAreSends(m, Tombstones(a));
    EditsAreSends(m, Tombstones(b));
  }

  lemma EditsBeforeMore(m: Message, a: seq<Change>, b: seq<Change>)
    ensures Edits(m, a) <= Edits(m, a + b)
  {
    EditsAreSends(m, a);
    EditsAreSends(m, a + b);
  }

  /** What the rows already scanned have called for is the start of what the upsert does. */
  lemma EditsSoFar(rows: seq<Row>, m: Message, index: nat, i: nat)
    requires index < |m.parts| && i <= |rows| && forall j :: 0 <= j < i ==> !Settling(rows[j], m)
    requires AllMine(StaleSoFar(rows, m, index, i))
    ensures Edits(m, Tombstones(StaleSoFar(rows, m, index, i))) <= Upsert(rows, m, index).ops
  {
    var soFar := StaleSoFar(rows, m, index, i);
    var stale := StaleFor(rows, m, index);
    StaleIsMore(rows, m, index, i);
    MineAtLeast(soFar, stale);
    EditsOfPrefix(m, soFar, Mine(stale));
    EditsOfPrefix(m, soFar, stale);
    EditsBeforeMore(m, Tombstones(stale), Outdated(rows, m, index));
  }

  /** The scan of row i calls for one more edit, unless the row may not be edited. */
  lemma ScanOne(rows: seq<Row>, m: Message, index: nat, i: nat)
    requires i < |rows|
    ensures StaleSoFar(rows, m, index, i + 1) ==
      if Superseded(rows[i], m, index) then StaleSoFar(rows, m, index, i) + [rows[i]] else StaleSoFar(rows, m, index, i)
  {
    assert rows[..i + 1] == rows[..i] + [rows[i]];
    StaleAfterOne(rows[..i], m, rows[i]);
  }

  lemma EditOne(m: Message, rows: seq<Row>, row: Row)
    ensures Edits(m, Tombstones(rows + [row])) == Edits(m, Tombstones(rows)) + [EditOf(m, Change(row, TOMBSTONE))]
  {
    TombstonesAfterOne(rows, row);
    EditsAfterOne(m, Tombstones(rows), Change(row, TOMBSTONE));
  }

  /** A superseded row that may not be edited ends the upsert. */
  lemma BlockedAt(rows: seq<Row>, m: Message, index: nat, i: nat)
    requires index < |m.parts| && i < |rows| && forall j :: 0 <= j <= i ==> !Settling(rows[j], m)
    requires AllMine(StaleSoFar(rows, m, index, i))
    requires Superseded(rows[i], m, index) && !rows[i].mine
    ensures Upsert(rows, m, index) == Plan(Edits(m, Tombstones(StaleSoFar(rows, m, index, i))), false)
  {
    var soFar := StaleSoFar(rows, m, index, i);
    ScanOne(rows, m, index, i);
    StaleIsMore(rows, m, index, i + 1);
    var stale := StaleFor(rows, m, index);
    var rest := stale[|soFar|..];
    assert stale == soFar + rest && rest[0] == rows[i];
    MineUpTo(soFar, rest);
  }

  /** A settling row ends the upsert, and what was sent is not saved. */
  lemma SettledAt(rows: seq<Row>, m: Message, index: nat, i: nat)
    requires index < |m.parts| && i < |rows| && (forall j :: 0 <= j < i ==> !Settling(rows[j], m)) && Settling(rows[i], m)
    requires AllMine(StaleSoFar(rows, m, index, i))
    ensures Upsert(rows, m, index) == Plan(Edits(m, Tombstones(StaleSoFar(rows, m, index, i))), true)
    ensures |Scanned(rows, m)| < |rows|
  {
    ScannedTo(rows, m, i);
  }

  /** With every row scanned, only the part's own edit is left. */
  lemma ScannedThrough(rows: seq<Row>, m: Message, index: nat)
    requires index < |m.parts| && Distinct(rows) && forall r :: r in rows ==> !Settling(r, m)
    requires AllMine(StaleSoFar(rows, m, index, |rows|))
    ensures Scanned(rows, m) == rows && StaleFor(rows, m, index) == StaleSoFar(rows, m, index, |rows|)
    ensures var edits := Edits(m, Tombstones(StaleSoFar(rows, m, index, |rows|))); var outdated := Outdated(rows, m, index);
      Upsert(rows, m, index) ==
        if outdated == [] then Plan(edits, true)
        else if outdated[0].row.mine then Plan(edits + [EditOf(m, outdated[0])], true)
        else Plan(edits, false)
  {
    ScannedAll(rows, m);
    assert rows[..|rows|] == rows;
    var tombstones := Tombstones(StaleFor(rows, m, index));
    var outdated := Outdated(rows, m, index);
    if outdated == [] {
      assert tombstones + [] == tombstones;
    } else {
      assert outdated == [outdated[0]];
      EditsAfterOne(m, tombstones, outdated[0]);
    }
  }

  lemma ScanOneMine(rows: seq<Row>, m: Message, index: nat, i: nat)
    requires index < |m.parts| && i < |rows| && AllMine(StaleSoFar(rows, m, index, i))
    requires Superseded(rows[i], m, index) && rows[i].mine
    ensures AllMine(StaleSoFar(rows, m, index, i + 1))
    ensures Edits(m, Tombstones(StaleSoFar(rows, m, index, i + 1)))
      == Edits(m, Tombstones(StaleSoFar(rows, m, index, i))) + [EditOf(m, Change(rows[i], TOMBSTONE))]
  {
    ScanOne(rows, m, index, i);
    EditOne(m, StaleSoFar(rows, m, index, i), rows[i]);
  }

  /** The scan failed on its last edit: so the whole upsert would have. */
  lemma ScanFails(start: Store, lit: nat, rows: seq<Row>, m: Message, index: nat, i: nat, now: Store, left: nat)
    requires index < |m.parts| && i < |rows| && forall j :: 0 <= j <= i ==> !Settling(rows[j], m)
    requires AllMine(StaleSoFar(rows, m, index, i)) && Superseded(rows[i], m, index) && rows[i].mine
    requires var edits := Edits(m, Tombstones(StaleSoFar(rows, m, index, i)));
      Ran(start, lit, edits + [EditOf(m, Change(rows[i], TOMBSTONE))], now, left, false)
    ensures Ran(start, lit, Upsert(rows, m, index).ops, now, left, false) && |Upsert(rows, m, index).ops| > lit
  {
    ScanOneMine(rows, m, index, i);
    EditsSoFar(rows, m, index, i + 1);
    RanPrefix(start, lit, Edits(m, Tombstones(StaleSoFar(rows, m, index, i + 1))), Upsert(rows, m, index).ops, now, left);
  }

  lemma SavesSoFar(rows: seq<Row>, m: Message, index: nat, k: nat)
    requires index < |m.parts| && k <= |rows|
    ensures Saves(m, Marked(rows[..k], m, index)) <= Saves(m, Marked(rows, m, index))
    decreases |rows| - k
  {
    if k == |rows| {
      assert rows[..k] == rows;
    } else {
      SaveOne(rows, m, index, k);
      SavesSoFar(rows, m, index, k + 1);
    }
  }

  lemma SaveOne(rows: seq<Row>, m: Message, index: nat, k: nat)
    requires index < |m.parts| && k < |rows|
    ensures var soFar := Saves(m, Marked(rows[..k], m, index)); var mark := MarkOf(rows[k], m, index);
      Saves(m, Marked(rows[..k + 1], m, index)) == if mark.Some? then soFar + [SaveOf(m, mark.value)] else soFar
  {
    assert rows[..k + 1] == rows[..k] + [rows[k]];
    MarkedAfterOne(rows[..k], m, index, rows[k]);
    if MarkOf(rows[k], m, index).Some? {
      EditsAfterOne(m, Marked(rows[..k], m, index), MarkOf(rows[k], m, index).value);
    } else {
      assert Marked(rows[..k], m, index) + [] == Marked(rows[..k], m, index);
    }
  }

  lemma RanPrefix(start: Store, lit: nat, ops: seq<Op>, all: seq<Op>, now: Store, left: nat)
    requires Ran(start, lit, ops, now, left, false) && ops <= all
    ensures Ran(start, lit, all, now, left, false) && |all| > lit
  {
    RanOut(start, lit, ops, now, left, all[|ops|..]);
    assert all == ops + all[|ops|..];
  }

  /** The operations of a part's event, in the order the framework carries them out. */
  lemma PlanInThree(rows: seq<Row>, m: Message, index: nat)
    requires index < |m.parts|
    ensures var sent := Upsert(rows, m, index); var plan := Reconcile(rows, m, index);
      && plan.ok == sent.ok && sent.ops <= plan.ops
      && (sent.ok && |Scanned(rows, m)| == |rows| ==>
            plan.ops == sent.ops + (Saves(m, Marked(rows, m, index)) + AdditionIf(rows, m, index)))
      && (!sent.ok || |Scanned(rows, m)| < |rows| ==> plan.ops == sent.ops)
  {
    ScannedAll(rows, m);
    var sent := Upsert(rows, m, index);
    if sent.ok && |Scanned(rows, m)| == |rows| {
      Regroup(sent.ops, Saves(m, Marked(rows, m, index)), AdditionIf(rows, m, index));
    }
  }

  lemma NoRowsPlan(m: Message, index: nat)
    requires index < |m.parts|
    ensures Reconcile([], m, index) == Plan(Addition(m, index), true)
  {
    assert Scanned([], m) == [];
    assert Changes([], m, index) == [];
    assert Marked([], m, index) == [];
  }

  /** The outcome of a whole event: what ran, and whether it succeeded. */
  predicate Handled(start: Store, lit: nat, plan: Plan, now: Store, left: nat, ok: bool) {
    Ran(start, lit, plan.ops, now, left, |plan.ops| <= lit) && ok == (|plan.ops| <= lit && plan.ok)
  }

  lemma FailedPart(start: Store, lit: nat, rows: seq<Row>, m: Message, index: nat, now: Store, left: nat)
    requires index < |m.parts|
    requires var sent := Upsert(rows, m, index);
      Ran(start, lit, sent.ops, now, left, |sent.ops| <= lit) && (|sent.ops| > lit || !sent.ok)
    ensures Handled(start, lit, Reconcile(rows, m, index), now, left, false)
  {
    var sent := Upsert(rows, m, index);
    PlanInThree(rows, m, index);
    if |sent.ops| > lit { RanPrefix(start, lit, sent.ops, Reconcile(rows, m, index).ops, now, left); }
  }

  /** What the upsert tells the framework when it succeeds. */
  predicate Told(before: seq<Row>, m: Message, index: nat, result: Result, after: seq<Row>)
    requires index < |m.parts|
  {
    && result.Result? && |after| == |before|
    && if |Scanned(before, m)| < |before| then result == Result(false, false)
       else
         && result == Result(Find(before, index).None?, Marked(before, m, index) != [])
         && forall k :: 0 <= k < |before| ==> after[k] == Touched(before[k], m, index)
  }

  lemma TargetIs(rows: seq<Row>, index: nat, target: Option<nat>)
    requires Distinct(rows)
    requires target.None? ==> forall j :: 0 <= j < |rows| ==> rows[j].part != index
    requires target.Some? ==> target.value < |rows| && rows[target.value].part == index
    ensures Find(rows, index) == if target.Some? then Some(rows[target.value]) else None
  {
    FindIs(rows, index);
    if target.Some? { FindMember(rows, rows[target.value]); }
  }

  /** The upsert's last step, when the part's own row needs no edit or is missing. */
  lemma ToldUnedited(before: seq<Row>, m: Message, index: nat, after: seq<Row>)
    requires index < |m.parts| && Distinct(before) && (forall r :: r in before ==> !Settling(r, m))
    requires AllMine(StaleSoFar(before, m, index, |before|)) && Outdated(before, m, index) == []
    requires |after| == |before| && forall k :: 0 <= k < |before| ==> after[k] == ScannedRow(before[k], m, index)
    ensures Told(before, m, index, Result(Find(before, index).None?, StaleSoFar(before, m, index, |before|) != []), after)
    ensures Upsert(before, m, index) == Plan(Edits(m, Tombstones(StaleSoFar(before, m, index, |before|))), true)
  {
    ScannedThrough(before, m, index);
    NothingMarked(before, m, index);
    TombstonesAre(StaleFor(before, m, index));
    assert Changes(before, m, index) == [] <==> StaleFor(before, m, index) == [];
    forall k | 0 <= k < |before| ensures after[k] == Touched(before[k], m, index) {
      if before[k].part == index { FindMember(before, before[k]); }
    }
  }

  /** The upsert's last step, when the part's own row is edited too. */
  lemma ToldEdited(before: seq<Row>, m: Message, index: nat, target: nat, after: seq<Row>)
    requires index < |m.parts| && Distinct(before) && (forall r :: r in before ==> !Settling(r, m))
    requires AllMine(StaleSoFar(before, m, index, |before|)) && Outdated(before, m, index) != []
    requires target < |before| && before[target].part == index && before[target].mine
    requires |after| == |before|
    requires forall k :: 0 <= k < |before| ==>
      after[k] == if k == target then before[k].(meta := EditedMeta(m, Change(before[k], m.parts[index]))) else ScannedRow(before[k], m, index)
    ensures Told(before, m, index, Result(false, true), after)
    ensures Upsert(before, m, index) ==
      Plan(Edits(m, Tombstones(StaleSoFar(before, m, index, |before|))) + [EditOf(m, Change(before[target], m.parts[index]))], true)
  {
    FindMember(before, before[target]);
    ScannedThrough(before, m, index);
    NothingMarked(before, m, index);
    assert Outdated(before, m, index)[0] in Changes(before, m, index);
    forall k | 0 <= k < |before| ensures after[k] == Touched(before[k], m, index) {
      if before[k].part == index { FindMember(before, before[k]); }
    }
  }

  // ---------------------------------------------------------------- facts about presenting

  /** The request of a presentation, if it makes one. */
  function RequestOf(m: Message, index: nat, event: nat, request: Option<Content>): seq<Op> {
    if request.Some? then [PresentOf(m, index, event, request.value)] else []
  }

  /** The answer of an upsert with edits off, and the rows it leaves in memory. */
  predicate Answers(start: Store, lit: nat, before: seq<Row>, m: Message, index: nat, now: Store, left: nat, result: Result, after: seq<Row>)
    requires index < |m.parts|
  {
    var verdict := Judge(before, m, index, None);
    if verdict.Shown? then
      var target := Find(before, index);
      && target.Some?
      && Ran(start, lit, RequestOf(m, index, target.value.event, verdict.request), now, left, result.Result?)
      && (result.Result? ==> after == SetMeta(before, index, verdict.meta) && result == Result(false, after != before))
    else
      && now == start && left == lit && after == before
      && result == if verdict.Refuse? then Failed else Result(verdict.Add?, false)
  }

  /** The row update the framework makes, if the row has changed. */
  function SaveIf(m: Message, row: Row, meta: Metadata): seq<Op> {
    if row.meta == meta then [] else [Save(Of(m.id), row.part, meta)]
  }

  lemma PlanOffIs(s: Store, m: Message, index: nat, k: nat)
    requires index < |m.parts| && Distinct(RowsOf(s.rows, Of(m.id))) && k < |RowsOf(s.rows, Of(m.id))|
    requires RowsOf(s.rows, Of(m.id))[k].part == index && Judge(RowsOf(s.rows, Of(m.id)), m, index, None).Shown?
    ensures var rows := RowsOf(s.rows, Of(m.id)); var verdict := Judge(rows, m, index, None);
      && Find(rows, index) == Some(rows[k])
      && PlanOff(s, m, index) == Plan(RequestOf(m, index, rows[k].event, verdict.request) + SaveIf(m, rows[k], verdict.meta), true)
  {
    var rows := RowsOf(s.rows, Of(m.id));
    FindMember(rows, rows[k]);
    SetAt(rows, k, Judge(rows, m, index, None).meta);
  }

  /** Refused, or out of fuse, or nothing to do. */
  lemma NothingSaved(start: Store, lit: nat, m: Message, index: nat, result: Result, after: seq<Row>, now: Store, left: nat)
    requires index < |m.parts| && Distinct(RowsOf(start.rows, Of(m.id))) && !(result.Result? && (result.save || result.goOn))
    requires Answers(start, lit, RowsOf(start.rows, Of(m.id)), m, index, now, left, result, after)
    ensures Handled(start, lit, PlanOff(start, m, index), now, left, result.Result?)
  {
    var before := RowsOf(start.rows, Of(m.id));
    RanNone(start, lit);
    var verdict := Judge(before, m, index, None);
    if verdict.Shown? {
      FindIs(before, index);
      var k :| 0 <= k < |before| && before[k] == Find(before, index).value;
      PlanOffIs(start, m, index, k);
      SetAt(before, k, verdict.meta);
      var requests, saves := RequestOf(m, index, before[k].event, verdict.request), SaveIf(m, before[k], verdict.meta);
      if result.Failed? {
        RanPrefix(start, lit, requests, requests + saves, now, left);
      } else {
        assert requests + [] == requests;
      }
    }
  }

  lemma GoesOn(start: Store, lit: nat, m: Message, index: nat, result: Result, after: seq<Row>, now: Store, left: nat)
    requires index < |m.parts| && result.Result? && result.goOn
    requires Answers(start, lit, RowsOf(start.rows, Of(m.id)), m, index, now, left, result, after)
    ensures now == start && left == lit && PlanOff(start, m, index) == Plan(Addition(m, index), true)
  {
  }

  /** The row a presentation has changed. */
  lemma ShownAt(start: Store, lit: nat, m: Message, index: nat, result: Result, after: seq<Row>, now: Store, left: nat) returns (k: nat)
    requires index < |m.parts| && Distinct(RowsOf(start.rows, Of(m.id))) && result.Result? && result.save
    requires Answers(start, lit, RowsOf(start.rows, Of(m.id)), m, index, now, left, result, after)
    ensures var before := RowsOf(start.rows, Of(m.id)); var verdict := Judge(before, m, index, None);
      && verdict.Shown? && k < |before| == |after| && before[k].part == index && after == before[k := before[k].(meta := verdict.meta)]
      && Ran(start, lit, RequestOf(m, index, before[k].event, verdict.request), now, left, true)
      && PlanOff(start, m, index) == Plan(RequestOf(m, index, before[k].event, verdict.request) + SaveIf(m, before[k], verdict.meta), true)
  {
    var before := RowsOf(start.rows, Of(m.id));
    FindIs(before, index);
    k :| 0 <= k < |before| && before[k] == Find(before, index).value;
    PlanOffIs(start, m, index, k);
    SetAt(before, k, Judge(before, m, index, None).meta);
  }

  // ---------------------------------------------------------------- facts about dispatch

  lemma {:induction false} EventsAppend(messages: seq<Message>, m: Message)
    ensures EventsOf(messages + [m]) == EventsOf(messages) + PartsFrom(m, 0)
  {
    if messages == [] {
      assert messages + [m] == [m];
    } else {
      assert (messages + [m])[1..] == messages[1..] + [m];
      EventsAppend(messages[1..], m);
    }
  }

  /** Where a dispatch cut off after a number of operations ends, and how that falls short of its cost. */
  datatype Fate = Fate(store: Store, whole: Outcome, short: int)

  function FateOf(edits: bool, s: Store, events: seq<Event>, fuse: nat): Fate
    requires ValidIn(edits, events)
  {
    Fate(AttemptIn(edits, s, events, fuse), DeliverIn(edits, s, events), CostIn(edits, s, events) - fuse)
  }

  lemma HandledWhole(s: Store, fuse: nat, plan: Plan, next: Store, left: nat)
    requires Handled(s, fuse, plan, next, left, true)
    ensures plan.ok && |plan.ops| <= fuse && next == Exec(s, plan.ops) && left == fuse - |plan.ops|
  {
  }

  lemma FirstIsValid(edits: bool, events: seq<Event>)
    requires ValidIn(edits, events) && events != []
    ensures ValidEventIn(edits, events[0]) && ValidIn(edits, events[1..])
  {
    assert events[0] in events;
  }

  /** One event handled: the dispatch's fate is that of the rest of its events. */
  lemma OneHandled(edits: bool, now: Store, rest: seq<Event>, left: nat, next: Store, last: nat)
    requires ValidIn(edits, rest) && rest != [] && ValidEventIn(edits, rest[0])
    requires Handled(now, left, PlanIn(edits, now, rest[0]), next, last, true)
    ensures ValidIn(edits, rest[1..]) && FateOf(edits, now, rest, left) == FateOf(edits, next, rest[1..], last)
  {
    FirstIsValid(edits, rest);
    var plan := PlanIn(edits, now, rest[0]);
    HandledWhole(now, left, plan, next, last);
    StepOn(edits, now, rest, left, plan, next);
  }

  lemma StepOn(edits: bool, now: Store, rest: seq<Event>, left: nat, plan: Plan, next: Store)
    requires ValidIn(edits, rest) && rest != [] && ValidEventIn(edits, rest[0]) && ValidIn(edits, rest[1..])
    requires plan == PlanIn(edits, now, rest[0]) && plan.ok && |plan.ops| <= left && next == Exec(now, plan.ops)
    ensures AttemptIn(edits, now, rest, left) == AttemptIn(edits, next, rest[1..], left - |plan.ops|)
    ensures DeliverIn(edits, now, rest) == DeliverIn(edits, next, rest[1..])
    ensures CostIn(edits, now, rest) == |plan.ops| + CostIn(edits, next, rest[1..])
  {
  }

  lemma WholeIsWell(edits: bool, s: Store, e: Event, next: Store)
    requires ValidEventIn(edits, e) && Well(s) && next == Exec(s, PlanIn(edits, s, e).ops)
    ensures Well(next)
  {
    var ops := PlanIn(edits, s, e).ops;
    assert ops[..|ops|] == ops;
    if edits { CutIsWell(s, e, |ops|); } else { OffKeepsWell(s, e.message, e.index, |ops|); }
  }

  /** An event that fails ends the dispatch before its checkpoints. */
  lemma OneFailed(edits: bool, now: Store, rest: seq<Event>, left: nat, next: Store, last: nat)
    requires ValidIn(edits, rest) && rest != [] && ValidEventIn(edits, rest[0])
    requires Handled(now, left, PlanIn(edits, now, rest[0]), next, last, false)
    ensures var fate := FateOf(edits, now, rest, left); fate.store == next && (!fate.whole.ok || fate.short > 0)
  {
  }

  // ---------------------------------------------------------------- the program

  class Bridge {
    var rows: map<Id, seq<Row>>
    var accepted: map<Key, nat>
    var timeline: seq<Sent>
    var branch: Option<Checkpoint>
    var delivered: Option<nat>
    var fuse: nat

    constructor (fuse: nat)
      ensures State() == Empty() && branch == None && delivered == None && this.fuse == fuse
    {
      rows, accepted, timeline := map[], map[], [];
      branch, delivered := None, None;
      this.fuse := fuse;
    }

    function State(): Store
      reads this
    {
      Store(rows, accepted, timeline)
    }

    /** A homeserver request; a repeated transaction is answered with the earlier event. */
    method SendMessage(key: Key, post: Post) returns (ok: bool, event: nat)
      modifies `accepted, `timeline, `fuse
      ensures Ran(old(State()), old(fuse), [Send(key, post)], State(), fuse, ok)
      ensures ok ==> key in accepted && event == accepted[key]
    {
      if fuse == 0 { return false, 0; }
      RanOne(State(), fuse, Send(key, post));
      fuse := fuse - 1;
      if key !in accepted {
        accepted := accepted[key := |timeline|];
        timeline := timeline + [Sent(Some(key), post)];
      }
      return true, accepted[key];
    }

    method SavePart(id: Id, part: nat, meta: Metadata) returns (ok: bool)
      modifies `rows, `fuse
      ensures Ran(old(State()), old(fuse), [Save(id, part, meta)], State(), fuse, ok)
    {
      if fuse == 0 { return false; }
      RanOne(State(), fuse, Save(id, part, meta));
      fuse := fuse - 1;
      rows := rows[id := SetMeta(RowsOf(rows, id), part, meta)];
      return true;
    }

    method InsertPart(id: Id, key: Key, part: nat, event: nat, meta: Metadata) returns (ok: bool)
      requires key in accepted && accepted[key] == event
      modifies `rows, `fuse
      ensures Ran(old(State()), old(fuse), [Insert(id, part, key, meta)], State(), fuse, ok)
    {
      if fuse == 0 { return false; }
      RanOne(State(), fuse, Insert(id, part, key, meta));
      fuse := fuse - 1;
      rows := rows[id := RowsOf(rows, id) + [Row(part, event, true, meta)]];
      return true;
    }

    /** The framework's sending of one new part: send it, then insert its row. */
    method SendPart(id: Id, part: nat, post: Post, meta: Metadata) returns (ok: bool)
      modifies `rows, `accepted, `timeline, `fuse
      ensures var key := Original(id, part);
        Ran(old(State()), old(fuse), [Send(key, post), Insert(id, part, key, meta)], State(), fuse, ok)
    {
      var key := Original(id, part);
      var event;
      ok, event := SendMessage(key, post);
      assert [Send(key, post)] + [Insert(id, part, key, meta)] == [Send(key, post), Insert(id, part, key, meta)];
      if !ok {
        RanOut(old(State()), old(fuse), [Send(key, post)], State(), fuse, [Insert(id, part, key, meta)]);
        return;
      }
      ghost var sent, left := State(), fuse;
      ok := InsertPart(id, key, part, event, meta);
      RanOn(old(State()), old(fuse), [Send(key, post)], sent, left, [Insert(id, part, key, meta)], State(), fuse, ok);
    }

    /** applySourceEdit: edits the row's event and advances the row in memory, once accepted. */
    method ApplySourceEdit(m: Message, existing: array<Row>, k: nat, content: Content) returns (updated: bool, ok: bool)
      requires k < existing.Length
      modifies `accepted, `timeline, `fuse, existing
      ensures var row := old(existing[k]); var c := Change(row, content);
        if !Differs(row, m, content) || !row.mine then
          ok == !Differs(row, m, content) && !updated
          && State() == old(State()) && fuse == old(fuse) && existing[..] == old(existing[..])
        else
          Ran(old(State()), old(fuse), [EditOf(m, c)], State(), fuse, ok) && updated == ok
          && existing[..] == if ok then old(existing[..])[k := row.(meta := EditedMeta(m, c))] else old(existing[..])
    {
      var row := existing[k];
      var meta := row.meta;
      if meta.hash == m.source && meta.shown == Some(content) && meta.count == |m.parts| { return false, true; }
      if !row.mine { return false, false; }
      var key := Edit(Of(m.id), row.part, meta.generation + 1, m.source, content);
      var event;
      ok, event := SendMessage(key, Replace(row.event, content));
      if !ok { return false, false; }
      existing[k] := row.(meta := Metadata(m.source, Some(content), |m.parts|, meta.generation + 1, false));
      return true, true;
    }

    /** The rows before i have been scanned: their edits are sent and show in memory. */
    ghost predicate Scanning(start: Store, lit: nat, before: seq<Row>, m: Message, index: nat, i: nat, existing: array<Row>, changed: bool)
      reads this, existing
    {
      && index < |m.parts| && i <= |before| == existing.Length
      && (forall j :: 0 <= j < i ==> !Settling(before[j], m))
      && AllMine(StaleSoFar(before, m, index, i))
      && Ran(start, lit, Edits(m, Tombstones(StaleSoFar(before, m, index, i))), State(), fuse, true)
      && (changed <==> StaleSoFar(before, m, index, i) != [])
      && (forall k :: 0 <= k < |before| ==> existing[k] == if k < i then ScannedRow(before[k], m, index) else before[k])
    }

    /** The upsert has failed: out of fuse, or at a row it may not edit. */
    ghost predicate Stopped(start: Store, lit: nat, before: seq<Row>, m: Message, index: nat)
      requires index < |m.parts|
      reads this
    {
      var plan := Upsert(before, m, index);
      Ran(start, lit, plan.ops, State(), fuse, |plan.ops| <= lit) && (|plan.ops| > lit || !plan.ok)
    }

    /** The upsert has made all its edits and told the framework what to do next. */
    ghost predicate Returned(start: Store, lit: nat, before: seq<Row>, m: Message, index: nat, result: Result, after: seq<Row>)
      requires index < |m.parts|
      reads this
    {
      && Upsert(before, m, index).ok
      && Ran(start, lit, Upsert(before, m, index).ops, State(), fuse, true)
      && Told(before, m, index, result, after)
    }

    /** One row of the scan: when handling part 0, a row past the last part is to show the tombstone. */
    method ScanRow(m: Message, index: nat, existing: array<Row>, i: nat, changed: bool,
        ghost start: Store, ghost lit: nat, ghost before: seq<Row>) returns (updated: bool, ok: bool)
      requires Scanning(start, lit, before, m, index, i, existing, changed)
      requires i < existing.Length && !Settling(before[i], m)
      modifies `accepted, `timeline, `fuse, existing
      ensures ok ==> Scanning(start, lit, before, m, index, i + 1, existing, changed || updated)
      ensures !ok ==> Stopped(start, lit, before, m, index)
    {
      var row := existing[i];
      ScanOne(before, m, index, i);
      if index != 0 || row.part < |m.parts| { return false, true; }
      ghost var soFar := StaleSoFar(before, m, index, i);
      ghost var now, left := State(), fuse;
      updated, ok := ApplySourceEdit(m, existing, i, TOMBSTONE);
      if Superseded(row, m, index) && row.mine {
        RanOn(start, lit, Edits(m, Tombstones(soFar)), now, left, [EditOf(m, Change(row, TOMBSTONE))], State(), fuse, ok);
        EditOne(m, soFar, row);
        if !ok { ScanFails(start, lit, before, m, index, i, State(), fuse); }
      } else if !ok {
        BlockedAt(before, m, index, i);
      }
    }

    lemma ScanBegins(m: Message, index: nat, existing: array<Row>)
      requires index < |m.parts|
      ensures Scanning(State(), fuse, existing[..], m, index, 0, existing, false)
    {
    }

    /** The part's own row is to show the part's content. */
    method EditTarget(m: Message, index: nat, existing: array<Row>, target: nat, changed: bool,
        ghost start: Store, ghost lit: nat, ghost before: seq<Row>) returns (result: Result)
      requires Scanning(start, lit, before, m, index, existing.Length, existing, changed)
      requires Distinct(before) && target < existing.Length && before[target].part == index
      requires !UpToDate(before[target], m, m.parts[index])
      modifies `accepted, `timeline, `fuse, existing
      ensures result.Failed? ==> Stopped(start, lit, before, m, index)
      ensures result.Result? ==> Returned(start, lit, before, m, index, result, existing[..])
    {
      FindMember(before, before[target]);
      ScannedThrough(before, m, index);
      ghost var now, left := State(), fuse;
      var updated, ok := ApplySourceEdit(m, existing, target, m.parts[index]);
      if before[target].mine {
        RanOn(start, lit, Edits(m, Tombstones(StaleSoFar(before, m, index, |before|))), now, left,
              [EditOf(m, Change(before[target], m.parts[index]))], State(), fuse, ok);
      }
      if !ok { return Failed; }
      ToldEdited(before, m, index, target, existing[..]);
      return Result(false, changed || updated);
    }

    /** What follows the scan: the part is missing, or shows its content already, or is to be edited. */
    method AfterScan(m: Message, index: nat, existing: array<Row>, target: Option<nat>, changed: bool,
        ghost start: Store, ghost lit: nat, ghost before: seq<Row>) returns (result: Result)
      requires Scanning(start, lit, before, m, index, existing.Length, existing, changed) && Distinct(before)
      requires target.None? ==> forall j :: 0 <= j < |before| ==> before[j].part != index
      requires target.Some? ==> target.value < |before| && before[target.value].part == index
      modifies `accepted, `timeline, `fuse, existing
      ensures result.Failed? ==> Stopped(start, lit, before, m, index)
      ensures result.Result? ==> Returned(start, lit, before, m, index, result, existing[..])
    {
      hide Ran, Reconcile;
      TargetIs(before, index, target);
      if target.None? {
        ToldUnedited(before, m, index, existing[..]);
        return Result(true, changed);
      }
      var meta := existing[target.value].meta;
      if meta.hash == m.source && meta.shown == Some(m.parts[index]) && (meta.count == |m.parts| || (|m.parts| == 1 && meta.count == 0)) {
        ToldUnedited(before, m, index, existing[..]);
        return Result(false, changed);
      }
      if meta.hash == m.source && m.source.role.User? && meta.shown.None? {
        ToldUnedited(before, m, index, existing[..]);
        return Result(false, changed);
      }
      result := EditTarget(m, index, existing, target.value, changed, start, lit, before);
    }

    method ReconciledPartUpsert(m: Message, index: nat, existing: array<Row>) returns (result: Result)
      requires index < |m.parts| && Distinct(existing[..])
      modifies `accepted, `timeline, `fuse, existing
      ensures result.Failed? ==> Stopped(old(State()), old(fuse), old(existing[..]), m, index)
      ensures result.Result? ==> Returned(old(State()), old(fuse), old(existing[..]), m, index, result, existing[..])
    {
      hide Ran, Reconcile;
      ghost var start, lit, before := State(), fuse, existing[..];
      ScanBegins(m, index, existing);
      var target: Option<nat> := None;
      var changed := false;
      var i := 0;
      while i < existing.Length
        invariant Scanning(start, lit, before, m, index, i, existing, changed)
        invariant target.None? ==> forall j :: 0 <= j < i ==> before[j].part != index
        invariant target.Some? ==> target.value < i && before[target.value].part == index
      {
        var row := existing[i];
        if row.meta.attachments {
          SettledAt(before, m, index, i);
          return Result(false, false);
        }
        if m.source.role.User? && row.part == 0 && row.meta.count == 0 && row.meta.hash == m.source {
          SettledAt(before, m, index, i);
          return Result(false, false);
        }
        if row.part == index { target := Some(i); }
        var updated, ok := ScanRow(m, index, existing, i, changed, start, lit, before);
        if !ok { return Failed; }
        changed := changed || updated;
        i := i + 1;
      }
      result := AfterScan(m, index, existing, target, changed, start, lit, before);
    }

    /** One row of SaveParts: updated if the upsert changed it. */
    method SaveRow(m: Message, index: nat, row: Row, before: seq<Row>, k: nat, ghost start: Store, ghost lit: nat) returns (ok: bool)
      requires index < |m.parts| && k < |before| && row == Touched(before[k], m, index)
      requires Ran(start, lit, Saves(m, Marked(before[..k], m, index)), State(), fuse, true)
      modifies `rows, `fuse
      ensures Ran(start, lit, Saves(m, Marked(before[..k + 1], m, index)), State(), fuse, ok)
    {
      SaveOne(before, m, index, k);
      if row == before[k] { return true; }
      ghost var mark := MarkOf(before[k], m, index);
      assert mark.Some?;
      ghost var now, left := State(), fuse;
      ok := SavePart(Of(m.id), row.part, row.meta);
      RanOn(start, lit, Saves(m, Marked(before[..k], m, index)), now, left, [SaveOf(m, mark.value)], State(), fuse, ok);
    }

    /** SaveParts: the rows the upsert changed are updated, in row order. */
    method SaveParts(m: Message, index: nat, existing: array<Row>, before: seq<Row>) returns (ok: bool)
      requires index < |m.parts| && |before| == existing.Length
      requires forall k :: 0 <= k < |before| ==> existing[k] == Touched(before[k], m, index)
      modifies `rows, `fuse
      ensures Ran(old(State()), old(fuse), Saves(m, Marked(before, m, index)), State(), fuse, ok)
    {
      ghost var start, lit := State(), fuse;
      RanNone(start, lit);
      var k := 0;
      while k < existing.Length
        invariant k <= existing.Length
        invariant Ran(start, lit, Saves(m, Marked(before[..k], m, index)), State(), fuse, true)
      {
        ok := SaveRow(m, index, existing[k], before, k, start, lit);
        if !ok {
          SavesSoFar(before, m, index, k + 1);
          RanPrefix(start, lit, Saves(m, Marked(before[..k + 1], m, index)), Saves(m, Marked(before, m, index)), State(), fuse);
          return;
        }
        k := k + 1;
      }
      assert before[..k] == before;
      return true;
    }

    /** What the framework does once the upsert has returned. */
    method Commit(m: Message, index: nat, result: Result, existing: array<Row>, before: seq<Row>, ghost start: Store, ghost lit: nat)
      returns (ok: bool)
      requires index < |m.parts| && Returned(start, lit, before, m, index, result, existing[..])
      modifies `rows, `accepted, `timeline, `fuse
      ensures Handled(start, lit, Reconcile(before, m, index), State(), fuse, ok)
    {
      ghost var plan, sent := Reconcile(before, m, index), Upsert(before, m, index).ops;
      ghost var saves, addition := Saves(m, Marked(before, m, index)), Addition(m, index);
      PlanInThree(before, m, index);
      ScannedAll(before, m);
      ghost var now, left := State(), fuse;
      if result.save {
        ok := SaveParts(m, index, existing, before);
        RanOn(start, lit, sent, now, left, saves, State(), fuse, ok);
        if !ok {
          assert sent + saves <= plan.ops by { Regroup(sent, saves, AdditionIf(before, m, index)); }
          RanPrefix(start, lit, sent + saves, plan.ops, State(), fuse);
          return;
        }
        now, left := State(), fuse;
      } else if |Scanned(before, m)| == |before| {
        assert saves == [] && sent + saves == sent;
      }
      if result.goOn {
        ok := SendPart(Of(m.id), index, New(m.parts[index]), NewMeta(m, index));
        Regroup(sent, saves, addition);
        RanOn(start, lit, sent + saves, now, left, addition, State(), fuse, ok);
        return;
      }
      assert |Scanned(before, m)| == |before| ==> plan.ops == sent + saves by { assert saves + [] == saves; }
      return true;
    }

    /** presentationUpsert, on the part's own row. */
    method PresentationUpsert(m: Message, index: nat, existing: array<Row>, k: nat) returns (result: Result)
      requires index < |m.parts| && k < existing.Length && existing[k].part == index && existing[k].meta.hash == m.source
      modifies `accepted, `timeline, `fuse, existing
      ensures var row := old(existing[k]); var verdict := Presenting(row, m, m.parts[index]);
        if verdict.Shown? then
          && Ran(old(State()), old(fuse), RequestOf(m, index, row.event, verdict.request), State(), fuse, result.Result?)
          && existing[..] == (if result.Result? then old(existing[..])[k := row.(meta := verdict.meta)] else old(existing[..]))
          && (result.Result? ==> result == Result(false, verdict.meta != row.meta))
        else result.Failed? && State() == old(State()) && fuse == old(fuse) && existing[..] == old(existing[..])
    {
      var content := m.parts[index];
      var row := existing[k];
      RanNone(State(), fuse);
      if m.source.role.User? { return Result(false, false); }
      if row.meta.shown == Some(content) { return Result(false, false); }
      var updated := Metadata(m.source, Some(content), row.meta.count, 0, false);
      if row.meta.shown.None? && content == m.source.body {
        existing[k] := row.(meta := updated);
        return Result(false, true);
      }
      if !row.mine { return Failed; }
      var ok, _ := SendMessage(Presentation(Of(m.id), row.part, content), Replace(row.event, content));
      if !ok { return Failed; }
      existing[k] := row.(meta := updated);
      return Result(false, true);
    }

    method MessagePartUpsert(m: Message, index: nat, existing: array<Row>) returns (result: Result)
      requires index < |m.parts| && Distinct(existing[..])
      modifies `accepted, `timeline, `fuse, existing
      ensures Answers(old(State()), old(fuse), old(existing[..]), m, index, State(), fuse, result, existing[..])
    {
      ghost var start, lit, before := State(), fuse, existing[..];
      var target: Option<nat> := None;
      var i := 0;
      while i < existing.Length
        invariant i <= existing.Length && existing[..] == before && State() == start && fuse == lit
        invariant target.Some? ==> target.value < i && before[target.value].part == index && Fits(before[target.value], m)
        invariant Judge(before, m, index, None) ==
          Judge(before[i..], m, index, if target.Some? then Some(before[target.value]) else None)
      {
        var row := existing[i];
        if row.meta.hash != m.source { return Failed; }
        if row.meta.count > 1 && row.meta.count != |m.parts| { return Failed; }
        if m.source.role.User? && row.part == 0 && row.meta.count == 0 { return Result(false, false); }
        if row.part == index { target := Some(i); }
        assert before[i..][1..] == before[i + 1..];
        i := i + 1;
      }
      if target.None? { return Result(true, false); }
      result := PresentTarget(m, index, existing, target.value);
    }

    /** The part's own row is presented, and learns the number of parts. */
    method PresentTarget(m: Message, index: nat, existing: array<Row>, k: nat) returns (result: Result)
      requires index < |m.parts| && Distinct(existing[..]) && k < existing.Length && existing[k].part == index
      requires existing[k].meta.hash == m.source && Judge(existing[..], m, index, None) == Present(existing[k], m, m.parts[index])
      modifies `accepted, `timeline, `fuse, existing
      ensures Answers(old(State()), old(fuse), old(existing[..]), m, index, State(), fuse, result, existing[..])
    {
      hide Ran, Judge;
      ghost var before := existing[..];
      FindMember(before, before[k]);
      result := PresentationUpsert(m, index, existing, k);
      if result.Result? && |m.parts| > 1 && existing[k].meta.count != |m.parts| {
        existing[k] := existing[k].(meta := existing[k].meta.(count := |m.parts|));
        result := Result(false, true);
      }
      if result.Result? {
        assert existing[..] == before[k := before[k].(meta := existing[k].meta)];
        SetAt(before, k, existing[k].meta);
      }
    }

    /** SaveParts with edits off: the one row that may have changed is updated. */
    method SavePresented(m: Message, index: nat, existing: array<Row>, before: seq<Row>, ghost target: nat) returns (ok: bool)
      requires |before| == existing.Length && target < |before| && before[target].part == index
      requires forall k :: 0 <= k < |before| && k != target ==> existing[k] == before[k]
      requires existing[target] == before[target].(meta := existing[target].meta)
      modifies `rows, `fuse
      ensures Ran(old(State()), old(fuse), SaveIf(m, before[target], existing[target].meta), State(), fuse, ok)
    {
      ghost var start, lit := State(), fuse;
      RanNone(start, lit);
      var k := 0;
      while k < existing.Length
        invariant k <= existing.Length
        invariant Ran(start, lit, if target < k then SaveIf(m, before[target], existing[target].meta) else [], State(), fuse, true)
      {
        if existing[k] != before[k] {
          assert k == target;
          ok := SavePart(Of(m.id), existing[k].part, existing[k].meta);
          if !ok { return; }
        }
        k := k + 1;
      }
      return true;
    }

    /** The framework's handling of a part with edits off. */
    method HandlePartOff(m: Message, index: nat) returns (ok: bool)
      requires index < |m.parts| && Distinct(RowsOf(rows, Of(m.id)))
      modifies `rows, `accepted, `timeline, `fuse
      ensures Handled(old(State()), old(fuse), PlanOff(old(State()), m, index), State(), fuse, ok)
    {
      ghost var start, lit := State(), fuse;
      var before := RowsOf(rows, Of(m.id));
      if before == [] {
        ok := SendPart(Of(m.id), index, New(m.parts[index]), NewMeta(m, index));
        return;
      }
      var existing := new Row[|before|](k requires 0 <= k < |before| => before[k]);
      assert existing[..] == before;
      var result := MessagePartUpsert(m, index, existing);
      ok := CommitOff(m, index, result, existing, before, start, lit);
    }

    /** What the framework does once the upsert with edits off has returned. */
    method CommitOff(m: Message, index: nat, result: Result, existing: array<Row>, before: seq<Row>, ghost start: Store, ghost lit: nat)
      returns (ok: bool)
      requires index < |m.parts| && before == RowsOf(start.rows, Of(m.id)) && Distinct(before) && |before| == existing.Length
      requires Answers(start, lit, before, m, index, State(), fuse, result, existing[..])
      modifies `rows, `accepted, `timeline, `fuse
      ensures Handled(start, lit, PlanOff(start, m, index), State(), fuse, ok)
    {
      hide PlanOff, Judge, Ran;
      if result.Failed? || (!result.save && !result.goOn) {
        NothingSaved(start, lit, m, index, result, existing[..], State(), fuse);
        return result.Result?;
      }
      if result.goOn {
        RanNone(start, lit);
        GoesOn(start, lit, m, index, result, existing[..], State(), fuse);
        ok := SendPart(Of(m.id), index, New(m.parts[index]), NewMeta(m, index));
        return;
      }
      ghost var now, left := State(), fuse;
      ghost var k := ShownAt(start, lit, m, index, result, existing[..], now, left);
      assert existing[k] == existing[..][k] && forall j :: 0 <= j < |before| ==> existing[j] == existing[..][j];
      ok := SavePresented(m, index, existing, before, k);
      RanOn(start, lit, RequestOf(m, index, before[k].event, Judge(before, m, index, None).request), now, left,
            SaveIf(m, before[k], existing[k].meta), State(), fuse, ok);
    }

    /** The framework's handling of a part: all rows of its message, then what the upsert says. */
    method HandlePart(m: Message, index: nat) returns (ok: bool)
      requires index < |m.parts| && Distinct(RowsOf(rows, Of(m.id)))
      modifies `rows, `accepted, `timeline, `fuse
      ensures Handled(old(State()), old(fuse), PlanFor(old(State()), Part(m, index)), State(), fuse, ok)
    {
      ghost var start, lit := State(), fuse;
      var before := RowsOf(rows, Of(m.id));
      if before == [] {
        NoRowsPlan(m, index);
        ok := SendPart(Of(m.id), index, New(m.parts[index]), NewMeta(m, index));
        return;
      }
      var existing := new Row[|before|](k requires 0 <= k < |before| => before[k]);
      assert existing[..] == before;
      var result := ReconciledPartUpsert(m, index, existing);
      if result.Failed? {
        FailedPart(start, lit, before, m, index, State(), fuse);
        return false;
      }
      ok := Commit(m, index, result, existing, before, start, lit);
    }

    /** A branch notice: the framework passes over an id it already stores. */
    method HandleNotice(checkpoint: Checkpoint) returns (ok: bool)
      modifies `rows, `accepted, `timeline, `fuse
      ensures Handled(old(State()), old(fuse), PlanFor(old(State()), Branch(checkpoint)), State(), fuse, ok)
    {
      var id := NoticeOf(checkpoint);
      if RowsOf(rows, id) != [] {
        RanNone(State(), fuse);
        return true;
      }
      ok := SendPart(id, 0, Notice, Metadata(Source(Assistant, "branch-change"), None, 0, 0, false));
    }

    /** The part events of a conversation, in order. */
    method Events(messages: seq<Message>) returns (events: seq<Event>)
      ensures events == EventsOf(messages)
    {
      events := [];
      var k := 0;
      while k < |messages|
        invariant k <= |messages| && events == EventsOf(messages[..k])
      {
        var m := messages[k];
        ghost var before := events;
        PartsAre(m, 0);
        var i := 0;
        while i < |m.parts|
          invariant i <= |m.parts| && events == before + PartsFrom(m, 0)[..i]
        {
          assert PartsFrom(m, 0)[..i + 1] == PartsFrom(m, 0)[..i] + [Part(m, i)];
          events := events + [Part(m, i)];
          i := i + 1;
        }
        assert messages[..k + 1] == messages[..k] + [m];
        EventsAppend(messages[..k], m);
        k := k + 1;
      }
      assert messages[..k] == messages;
    }

    /** branchState: the conversation's ids, and whether one of the last checkpoint's is no longer among them. */
    method BranchState(messages: seq<Message>) returns (state: Checkpoint, changed: bool)
      ensures changed <==> Omits(IdsOf(branch), messages)
      ensures Follows(state, branch, messages)
      ensures state == NextCheckpoint(branch, messages) && changed == Drops(branch, messages)
    {
      DropsExactly(branch, messages);
      var ids: seq<nat> := [];
      var current: set<nat> := {};
      var k := 0;
      while k < |messages|
        invariant k <= |messages| && ids == Ids(messages)[..k]
        invariant forall id :: id in current <==> id in ids
      {
        ids := ids + [messages[k].id];
        current := current + {messages[k].id};
        k := k + 1;
      }
      assert ids == Ids(messages);
      if branch.None? { return Checkpoint(ids, 0), false; }
      var previous := branch.value;
      k := 0;
      while k < |previous.ids|
        invariant k <= |previous.ids| && forall j :: 0 <= j < k ==> previous.ids[j] in current
      {
        if previous.ids[k] !in current { return Checkpoint(ids, previous.generation + 1), true; }
        k := k + 1;
      }
      return Checkpoint(ids, previous.generation), false;
    }

    function RoomState(): Room
      reads this
    {
      Room(State(), branch, delivered)
    }

    method HandleEvent(edits: bool, e: Event) returns (ok: bool)
      requires ValidEventIn(edits, e) && Well(State())
      modifies `rows, `accepted, `timeline, `fuse
      ensures Handled(old(State()), old(fuse), PlanIn(edits, old(State()), e), State(), fuse, ok)
    {
      match e {
        case Part(m, index) => if edits { ok := HandlePart(m, index); } else { ok := HandlePartOff(m, index); }
        case Branch(checkpoint) => ok := HandleNotice(checkpoint);
      }
    }

    /** The loop of dispatch: every event in order, up to the first that fails. */
    method HandleEvents(edits: bool, events: seq<Event>) returns (ok: bool)
      requires ValidIn(edits, events) && Well(State())
      modifies `rows, `accepted, `timeline, `fuse
      ensures var fate := FateOf(edits, old(State()), events, old(fuse));
        State() == fate.store && ok == (fate.whole.ok && fate.short <= 0) && (ok ==> fuse == -fate.short)
    {
      hide PlanIn, FateOf, Well, ValidIn;
      ghost var fate := FateOf(edits, State(), events, fuse);
      var i := 0;
      assert events[0..] == events;
      while i < |events|
        invariant i <= |events| && Well(State()) && ValidIn(edits, events[i..])
        invariant fate == FateOf(edits, State(), events[i..], fuse)
      {
        ghost var now, left := State(), fuse;
        FirstIsValid(edits, events[i..]);
        ok := HandleEvent(edits, events[i]);
        if !ok {
          OneFailed(edits, now, events[i..], left, State(), fuse);
          return;
        }
        OneHandled(edits, now, events[i..], left, State(), fuse);
        HandledWhole(now, left, PlanIn(edits, now, events[i]), State(), fuse);
        WholeIsWell(edits, now, events[i], State());
        assert events[i..][1..] == events[i + 1..];
        i := i + 1;
      }
      assert events[i..] == [];
      NothingLeft(edits, State(), fuse);
      return true;
    }

    lemma NothingLeft(edits: bool, s: Store, left: nat)
      ensures ValidIn(edits, []) && FateOf(edits, s, [], left) == Fate(s, Outcome(s, true), 0 - left)
    {
    }

    /**
     One dispatch of a conversation: its events, then the branch checkpoint, which only a bridge that
     syncs edits keeps, and the fingerprint.
     */
    method Dispatch(edits: bool, messages: seq<Message>, version: nat) returns (ok: bool)
      requires Well(State())
      modifies this
      ensures RoomState() == AttemptRoom(edits, old(RoomState()), messages, version, old(fuse))
      ensures var cost := CostIn(edits, old(State()), RoomEvents(edits, old(branch), messages)) + (if edits then 2 else 1);
        ok <==> Succeeds(edits, old(RoomState()), messages) && cost <= old(fuse)
    {
      hide DeliverIn, AttemptIn, CostIn, ValidIn;
      var events := Events(messages);
      var state, changed := Checkpoint([], 0), false;
      if edits { state, changed := BranchState(messages); }
      if changed { events := [Branch(state)] + events; }
      assert events == RoomEvents(edits, branch, messages) by { assert [] + EventsOf(messages) == EventsOf(messages); }
      ok := HandleEvents(edits, events);
      if !ok { return; }
      if edits {
        if fuse == 0 { return false; }
        branch, fuse := Some(state), fuse - 1;
      }
      if fuse == 0 { return false; }
      delivered, fuse := Some(version), fuse - 1;
    }
  }
}
