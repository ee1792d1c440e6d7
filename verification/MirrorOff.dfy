/**
 Dispatches with edits off (pkg/connector/formatting.go, messagePartUpsert; connector.go): what each
 part's event does to the store, that a dispatch cut off anywhere resumes, when one succeeds and
 what it then shows.
 */
module MirrorOff {
  import opened Mirror
  import opened MirrorResume
  import opened MirrorEvents
  import opened MirrorPlain

  // ---------------------------------------------------------------- a dispatch with edits off

  /** presentationUpsert's request. */
  function PresentOf(m: Message, index: nat, event: nat, content: Content): Op {
    Send(Presentation(Of(m.id), index, content), Replace(event, content))
  }

  /** The operations a part's event performs with edits off (MirrorPlain.Judge on the stored rows). */
  function PlanOff(s: Store, m: Message, index: nat): Plan
    requires index < |m.parts|
  {
    var rows := RowsOf(s.rows, Of(m.id));
    match Judge(rows, m, index, None)
    case Refuse => Plan([], false)
    case Leave => Plan([], true)
    case Add => Plan(Addition(m, index), true)
    case Shown(meta, request) =>
      var target := Find(rows, index);
      Plan((if request.Some? && target.Some? then [PresentOf(m, index, target.value.event, request.value)] else [])
           + (if SetMeta(rows, index, meta) == rows then [] else [Save(Of(m.id), index, meta)]), true)
  }

  predicate OnlyParts(events: seq<Event>) {
    forall e :: e in events ==> e.Part? && e.index < |e.message.parts|
  }

  /** A failure-free dispatch with edits off: every part in order, stopping at the first that errs. */
  function DeliverOff(s: Store, events: seq<Event>): Outcome
    requires OnlyParts(events)
    decreases |events|
  {
    if events == [] then Outcome(s, true)
    else
      assert events[0] in events;
      var plan := PlanOff(s, events[0].message, events[0].index);
      var next := Exec(s, plan.ops);
      if plan.ok then DeliverOff(next, events[1..]) else Outcome(next, false)
  }

  /** A dispatch with edits off, which announces no branch, cut off after its first budget operations. */
  function AttemptOff(s: Store, events: seq<Event>, budget: nat): Store
    requires OnlyParts(events)
    decreases |events|
  {
    if events == [] then s
    else
      assert events[0] in events;
      var plan := PlanOff(s, events[0].message, events[0].index);
      if budget < |plan.ops| then Exec(s, plan.ops[..budget])
      else if plan.ok then AttemptOff(Exec(s, plan.ops), events[1..], budget - |plan.ops|)
      else Exec(s, plan.ops)
  }

  // ---------------------------------------------------------------- how rows are judged

  /** The first row that is of another source or layout, or holds the whole message. */
  function Barrier(rows: seq<Row>, m: Message): Option<Row> {
    if rows == [] then None
    else if !Fits(rows[0], m) || HoldsWhole(rows[0], m) then Some(rows[0]) else Barrier(rows[1..], m)
  }

  predicate Open(rows: seq<Row>, m: Message) {
    forall r :: r in rows ==> Fits(r, m) && !HoldsWhole(r, m)
  }

  lemma {:induction false} BarrierIs(rows: seq<Row>, m: Message)
    ensures Barrier(rows, m).None? <==> Open(rows, m)
    ensures Barrier(rows, m).Some? ==> Barrier(rows, m).value in rows
  {
    if rows != [] {
      BarrierIs(rows[1..], m);
      assert forall r :: r in rows <==> r == rows[0] || r in rows[1..];
    }
  }

  lemma {:induction false} JudgedByBarrier(rows: seq<Row>, m: Message, index: nat, target: Option<Row>)
    requires index < |m.parts| && Barrier(rows, m).Some?
    ensures Judge(rows, m, index, target) == if Fits(Barrier(rows, m).value, m) then Leave else Refuse
  {
    if Fits(rows[0], m) && !HoldsWhole(rows[0], m) {
      JudgedByBarrier(rows[1..], m, index, if rows[0].part == index then Some(rows[0]) else target);
    }
  }

  /** One row decides for all parts, or each part's own row decides for it. */
  lemma JudgeIs(rows: seq<Row>, m: Message, index: nat)
    requires index < |m.parts| && Distinct(rows)
    ensures var target := Find(rows, index); var barrier := Barrier(rows, m);
      Judge(rows, m, index, None) ==
        if barrier.Some? then (if Fits(barrier.value, m) then Leave else Refuse)
        else if target.None? then Add
        else Present(target.value, m, m.parts[index])
  {
    BarrierIs(rows, m);
    FindIs(rows, index);
    if Barrier(rows, m).Some? {
      JudgedByBarrier(rows, m, index, None);
    } else if Find(rows, index).None? {
      AddsOnlyGaps(rows, m, index);
    } else {
      var own := Find(rows, index).value;
      forall r | r in rows && r.part == index ensures r == own { FindMember(rows, r); }
      JudgeByTarget(rows, m, index, None, own);
    }
  }

  // ---------------------------------------------------------------- one event, cut off anywhere

  /** Nothing of the part's event is left to do. */
  predicate DoneOff(s: Store, m: Message, index: nat)
    requires index < |m.parts|
  {
    PlanOff(s, m, index) == Plan([], true)
  }

  lemma OneOp(s: Store, op: Op)
    ensures Exec(s, [op]) == Apply(s, op)
  {
    assert [op][1..] == [] && Exec(s, [op]) == Exec(Apply(s, op), []);
  }

  lemma TwoOps(s: Store, a: Op, b: Op)
    ensures Exec(s, [a, b]) == Apply(Apply(s, a), b) && Exec(s, [a, b][..1]) == Apply(s, a) && [a, b][..0] == [] && [a, b][..2] == [a, b]
  {
    assert [a, b][1..] == [b] && [a, b][..1] == [a];
    OneOp(s, a);
    OneOp(Apply(s, a), b);
  }

  /** The plan depends on the message's rows alone. */
  lemma SamePlan(s: Store, next: Store, m: Message, index: nat)
    requires index < |m.parts| && RowsOf(next.rows, Of(m.id)) == RowsOf(s.rows, Of(m.id))
    ensures PlanOff(next, m, index) == PlanOff(s, m, index)
  {
  }

  /** A row that shows its part and knows how many there are. */
  predicate Rests(row: Row, m: Message, index: nat)
    requires index < |m.parts|
  {
    Present(row, m, m.parts[index]) == Shown(row.meta, None)
  }

  /** A whole message keeps its parts from being sent, or the part's own row rests. */
  predicate Settles(rows: seq<Row>, m: Message, index: nat)
    requires index < |m.parts|
  {
    var target := Find(rows, index);
    var barrier := Barrier(rows, m);
    if barrier.Some? then Fits(barrier.value, m) else target.Some? && Rests(target.value, m, index)
  }

  lemma DoneIsSettled(s: Store, m: Message, index: nat)
    requires index < |m.parts| && Distinct(RowsOf(s.rows, Of(m.id)))
    ensures DoneOff(s, m, index) <==> Settles(RowsOf(s.rows, Of(m.id)), m, index)
  {
    var rows := RowsOf(s.rows, Of(m.id));
    JudgeIs(rows, m, index);
    if Find(rows, index).Some? {
      FindIs(rows, index);
      var row := Find(rows, index).value;
      var k :| 0 <= k < |rows| && rows[k] == row;
      var verdict := Judge(rows, m, index, None);
      if verdict.Shown? { SetAt(rows, k, verdict.meta); }
    }
  }

  /** At most a request, and then at most one change to the message's rows. */
  lemma OpsAre(s: Store, m: Message, index: nat)
    requires index < |m.parts|
    ensures var ops := PlanOff(s, m, index).ops;
      |ops| <= 2 && (|ops| == 2 ==> ops[0].Send?) && OpsFor(ops, Of(m.id)) && (!PlanOff(s, m, index).ok ==> ops == [])
  {
  }

  lemma SendTwice(s: Store, send: Op)
    requires send.Send?
    ensures Apply(Apply(s, send), send) == Apply(s, send) && Apply(s, send).rows == s.rows
  {
  }

  /** Before its last operation an event has only made a request, which it can make again. */
  lemma EarlyCut(s: Store, ops: seq<Op>, k: nat)
    requires |ops| <= 2 && (|ops| == 2 ==> ops[0].Send?) && k < |ops|
    ensures Exec(s, ops[..k]).rows == s.rows && Exec(Exec(s, ops[..k]), ops) == Exec(s, ops)
  {
    if k == 0 {
      assert ops[..0] == [];
    } else {
      var send, write := ops[0], ops[1];
      assert ops == [send, write];
      TwoOps(s, send, write);
      TwoOps(Apply(s, send), send, write);
      SendTwice(s, send);
    }
  }

  /** The message's rows once a part of it is presented. */
  lemma ShownRows(s: Store, m: Message, index: nat)
    requires index < |m.parts| && Distinct(RowsOf(s.rows, Of(m.id))) && Judge(RowsOf(s.rows, Of(m.id)), m, index, None).Shown?
    ensures var rows := RowsOf(s.rows, Of(m.id));
      RowsOf(Exec(s, PlanOff(s, m, index).ops).rows, Of(m.id)) == SetMeta(rows, index, Judge(rows, m, index, None).meta)
  {
    PresentedOps(s, m, index);
  }

  lemma OneSave(s: Store, id: Id, part: nat, meta: Metadata)
    ensures var rows := RowsOf(s.rows, id);
      var next := Exec(s, if SetMeta(rows, part, meta) == rows then [] else [Save(id, part, meta)]);
      next.timeline == s.timeline && next.accepted == s.accepted && RowsOf(next.rows, id) == SetMeta(rows, part, meta)
  {
    OneOp(s, Save(id, part, meta));
  }

  /** A presentation: its request, if it makes one, and its row. */
  lemma PresentedOps(s: Store, m: Message, index: nat)
    requires index < |m.parts| && Distinct(RowsOf(s.rows, Of(m.id))) && Judge(RowsOf(s.rows, Of(m.id)), m, index, None).Shown?
    ensures var rows := RowsOf(s.rows, Of(m.id)); var row := Find(rows, index); var verdict := Judge(rows, m, index, None);
      row.Some? &&
      var sent := if verdict.request.Some? then Apply(s, PresentOf(m, index, row.value.event, verdict.request.value)) else s;
      var next := Exec(s, PlanOff(s, m, index).ops);
      && next.timeline == sent.timeline && next.accepted == sent.accepted
      && RowsOf(next.rows, Of(m.id)) == SetMeta(rows, index, verdict.meta)
  {
    hide Judge, SetMeta, Apply;
    var rows := RowsOf(s.rows, Of(m.id));
    var verdict := Judge(rows, m, index, None);
    JudgeIs(rows, m, index);
    var row := Find(rows, index).value;
    var saves := if SetMeta(rows, index, verdict.meta) == rows then [] else [Save(Of(m.id), index, verdict.meta)];
    if verdict.request.Some? {
      var send := PresentOf(m, index, row.event, verdict.request.value);
      ExecAppend(s, [send], saves);
      OneOp(s, send);
      SendTwice(s, send);
      OneSave(Apply(s, send), Of(m.id), index, verdict.meta);
    } else {
      assert [] + saves == saves;
      OneSave(s, Of(m.id), index, verdict.meta);
    }
  }

  // ---------------------------------------------------------------- rows, one event later

  /** What a part's event makes of its message's rows: a new row, a presented one, or nothing. */
  predicate Becomes(rows: seq<Row>, after: seq<Row>, m: Message, index: nat)
    requires index < |m.parts|
  {
    var verdict := Judge(rows, m, index, None);
    if verdict.Add? then |after| == |rows| + 1 && after == rows + [Row(index, after[|rows|].event, true, NewMeta(m, index))]
    else if verdict.Shown? then after == SetMeta(rows, index, verdict.meta)
    else after == rows
  }

  lemma RowsLater(s: Store, m: Message, index: nat)
    requires index < |m.parts| && Distinct(RowsOf(s.rows, Of(m.id)))
    ensures Becomes(RowsOf(s.rows, Of(m.id)), RowsOf(Exec(s, PlanOff(s, m, index).ops).rows, Of(m.id)), m, index)
  {
    if Judge(RowsOf(s.rows, Of(m.id)), m, index, None).Shown? { ShownRows(s, m, index); }
    AddedEvent(s, m, index);
  }

  lemma NewRests(rows: seq<Row>, m: Message, index: nat, event: nat)
    requires index < |m.parts| && Distinct(rows) && Judge(rows, m, index, None) == Add
    ensures var after := rows + [Row(index, event, true, NewMeta(m, index))];
      Distinct(after) && Settles(after, m, index)
  {
    var row := Row(index, event, true, NewMeta(m, index));
    var after := rows + [row];
    AddsOnlyGaps(rows, m, index);
    FindIs(rows, index);
    FindAfterAdd(rows, row, index);
    BarrierIs(rows, m);
    BarrierIs(after, m);
    assert forall r :: r in after <==> r in rows || r == row;
  }

  lemma ShownRests(rows: seq<Row>, m: Message, index: nat)
    requires index < |m.parts| && Distinct(rows) && Judge(rows, m, index, None).Shown?
    ensures var after := SetMeta(rows, index, Judge(rows, m, index, None).meta);
      Distinct(after) && Open(after, m) && Settles(after, m, index)
  {
    var meta := Judge(rows, m, index, None).meta;
    var after := SetMeta(rows, index, meta);
    JudgeIs(rows, m, index);
    BarrierIs(rows, m);
    BarrierIs(after, m);
    FindIs(rows, index);
    FindAfterSet(rows, index, meta, index);
    SetMetaAt(rows, index, meta);
    PresentedRests(Find(rows, index).value, m, index);
    forall r | r in after ensures Fits(r, m) && !HoldsWhole(r, m) {
      var k :| 0 <= k < |after| && after[k] == r;
      if rows[k].part == index { FindMember(rows, rows[k]); }
    }
  }

  /** A part's event that succeeds leaves nothing of itself to do. */
  lemma PartIsDoneOff(s: Store, m: Message, index: nat)
    requires index < |m.parts| && Distinct(RowsOf(s.rows, Of(m.id))) && PlanOff(s, m, index).ok
    ensures var next := Exec(s, PlanOff(s, m, index).ops); Distinct(RowsOf(next.rows, Of(m.id))) && DoneOff(next, m, index)
  {
    var rows := RowsOf(s.rows, Of(m.id));
    var next := Exec(s, PlanOff(s, m, index).ops);
    RowsLater(s, m, index);
    match Judge(rows, m, index, None)
    case Add =>
      NewRests(rows, m, index, RowsOf(next.rows, Of(m.id))[|rows|].event);
      DoneIsSettled(next, m, index);
    case Shown(_, _) =>
      ShownRests(rows, m, index);
      DoneIsSettled(next, m, index);
    case _ =>
  }

  /** A part's event cut off at any operation and run again ends in the same store. */
  lemma PartCutOff(s: Store, m: Message, index: nat, k: nat)
    requires index < |m.parts| && Distinct(RowsOf(s.rows, Of(m.id))) && k <= |PlanOff(s, m, index).ops|
    ensures var plan := PlanOff(s, m, index); var cut := Exec(s, plan.ops[..k]);
      PlanOff(cut, m, index).ok == plan.ok && Exec(cut, PlanOff(cut, m, index).ops) == Exec(s, plan.ops)
  {
    hide PlanOff;
    var plan := PlanOff(s, m, index);
    OpsAre(s, m, index);
    if k < |plan.ops| {
      EarlyCut(s, plan.ops, k);
      SamePlan(s, Exec(s, plan.ops[..k]), m, index);
    } else {
      assert plan.ops[..k] == plan.ops;
      if plan.ok { PartIsDoneOff(s, m, index); }
    }
  }

  // ---------------------------------------------------------------- events do not undo one another

  /** Another part's event leaves a settled part settled. */
  lemma OtherPartSettles(rows: seq<Row>, after: seq<Row>, m: Message, index: nat, other: nat)
    requires index < |m.parts| && other < |m.parts| && index != other && Distinct(rows) && Settles(rows, m, index)
    requires Becomes(rows, after, m, other)
    ensures Settles(after, m, index)
  {
    BarrierIs(rows, m);
    BarrierIs(after, m);
    match Judge(rows, m, other, None)
    case Add =>
      var event := after[|rows|].event;
      AddsOnlyGaps(rows, m, other);
      FindAfterAdd(rows, Row(other, event, true, NewMeta(m, other)), index);
      assert forall r :: r in after <==> r in rows || r == Row(other, event, true, NewMeta(m, other));
    case Shown(meta, _) =>
      ShownRests(rows, m, other);
      JudgeIs(rows, m, other);
      FindAfterSet(rows, other, meta, index);
    case _ =>
  }

  /** Any portion of another event of the dispatch leaves a finished part finished. */
  lemma CutKeepsDoneOff(s: Store, m: Message, index: nat, n: Message, other: nat, k: nat)
    requires index < |m.parts| && other < |n.parts| && (m.id == n.id ==> m == n && index != other)
    requires Distinct(RowsOf(s.rows, Of(m.id))) && DoneOff(s, m, index) && k <= |PlanOff(s, n, other).ops|
    ensures DoneOff(Exec(s, PlanOff(s, n, other).ops[..k]), m, index)
  {
    hide PlanOff, Judge, Settles;
    var ops := PlanOff(s, n, other).ops;
    OpsAre(s, n, other);
    var cut := Exec(s, ops[..k]);
    if m.id != n.id {
      assert OpsFor(ops[..k], Of(n.id));
      OtherRows(s, ops[..k], Of(n.id), Of(m.id));
      SamePlan(s, cut, m, index);
    } else if k < |ops| {
      EarlyCut(s, ops, k);
      SamePlan(s, cut, m, index);
    } else {
      assert ops[..k] == ops;
      RowsLater(s, m, other);
      DistinctLater(s, m, other);
      DoneIsSettled(s, m, index);
      OtherPartSettles(RowsOf(s.rows, Of(m.id)), RowsOf(cut.rows, Of(m.id)), m, index, other);
      DoneIsSettled(cut, m, index);
    }
  }

  lemma DistinctLater(s: Store, m: Message, index: nat)
    requires index < |m.parts| && Distinct(RowsOf(s.rows, Of(m.id)))
    ensures Distinct(RowsOf(Exec(s, PlanOff(s, m, index).ops).rows, Of(m.id)))
  {
    if PlanOff(s, m, index).ok { PartIsDoneOff(s, m, index); }
  }

  // ---------------------------------------------------------------- resume equivalence

  lemma OffKeepsWell(s: Store, m: Message, index: nat, k: nat)
    requires index < |m.parts| && Well(s) && k <= |PlanOff(s, m, index).ops|
    ensures Well(Exec(s, PlanOff(s, m, index).ops[..k]))
  {
    hide PlanOff;
    var ops := PlanOff(s, m, index).ops;
    var cut := Exec(s, ops[..k]);
    OpsAre(s, m, index);
    forall id: Id ensures Distinct(RowsOf(cut.rows, id)) {
      assert Distinct(RowsOf(s.rows, id)) && Distinct(RowsOf(s.rows, Of(m.id)));
      if id != Of(m.id) {
        assert OpsFor(ops[..k], Of(m.id));
        OtherRows(s, ops[..k], Of(m.id), id);
      } else if k < |ops| {
        EarlyCut(s, ops, k);
      } else {
        assert ops[..k] == ops;
        DistinctLater(s, m, index);
      }
    }
  }

  predicate AllDoneOff(s: Store, events: seq<Event>)
    requires OnlyParts(events)
  {
    forall e :: e in events ==> DoneOff(s, e.message, e.index)
  }

  lemma AllStayDoneOff(s: Store, past: seq<Event>, events: seq<Event>, k: nat)
    requires OnlyParts(past) && OnlyParts(events) && Coherent(past + events) && events != []
    requires Well(s) && AllDoneOff(s, past)
    requires events[0] in events && k <= |PlanOff(s, events[0].message, events[0].index).ops|
    ensures AllDoneOff(Exec(s, PlanOff(s, events[0].message, events[0].index).ops[..k]), past)
  {
    hide PlanOff, DoneOff;
    var f := events[0];
    forall e | e in past ensures DoneOff(Exec(s, PlanOff(s, f.message, f.index).ops[..k]), e.message, e.index) {
      var i :| 0 <= i < |past| && past[i] == e;
      assert (past + events)[i] == e && (past + events)[|past|] == f;
      CutKeepsDoneOff(s, e.message, e.index, f.message, f.index, k);
    }
  }

  lemma {:induction false} DoneDeliversOff(s: Store, past: seq<Event>, events: seq<Event>)
    requires OnlyParts(past) && OnlyParts(events) && AllDoneOff(s, past)
    ensures OnlyParts(past + events) && DeliverOff(s, past + events) == DeliverOff(s, events)
    decreases |past|
  {
    if past == [] {
      assert past + events == events;
    } else {
      assert past[0] in past && OnlyParts(past[1..]) && AllDoneOff(s, past[1..]);
      DoneDeliversOff(s, past[1..], events);
      assert (past + events)[0] == past[0] && (past + events)[1..] == past[1..] + events;
    }
  }

  /** One event of a dispatch that goes on: it is done, and so are the earlier ones. */
  lemma OffMovesOn(s: Store, past: seq<Event>, events: seq<Event>)
    requires OnlyParts(past) && OnlyParts(events) && Coherent(past + events) && events != [] && events[0] in events
    requires Well(s) && AllDoneOff(s, past) && PlanOff(s, events[0].message, events[0].index).ok
    ensures var next := Exec(s, PlanOff(s, events[0].message, events[0].index).ops);
      && Well(next) && OnlyParts(past + [events[0]]) && AllDoneOff(next, past + [events[0]])
      && OnlyParts(events[1..]) && past + events == (past + [events[0]]) + events[1..]
  {
    hide PlanOff, DoneOff;
    var m, index := events[0].message, events[0].index;
    var ops := PlanOff(s, m, index).ops;
    assert ops[..|ops|] == ops;
    AllStayDoneOff(s, past, events, |ops|);
    OffKeepsWell(s, m, index, |ops|);
    PartIsDoneOff(s, m, index);
  }

  lemma CutResumesOff(s: Store, past: seq<Event>, events: seq<Event>, k: nat)
    requires OnlyParts(past) && OnlyParts(events) && Coherent(past + events) && events != [] && events[0] in events
    requires Well(s) && AllDoneOff(s, past) && k <= |PlanOff(s, events[0].message, events[0].index).ops|
    ensures var cut := Exec(s, PlanOff(s, events[0].message, events[0].index).ops[..k]);
      Well(cut) && OnlyParts(past + events) && DeliverOff(cut, past + events) == DeliverOff(s, events)
  {
    hide PlanOff, DoneOff;
    var m, index := events[0].message, events[0].index;
    AllStayDoneOff(s, past, events, k);
    OffKeepsWell(s, m, index, k);
    DoneDeliversOff(Exec(s, PlanOff(s, m, index).ops[..k]), past, events);
    PartCutOff(s, m, index, k);
  }

  /**
   After an attempt with edits off cut off anywhere, with its earlier events done, delivering all the
   events again has the same outcome as going on from where the attempt began.
   */
  lemma {:induction false} AttemptResumesOff(s: Store, past: seq<Event>, events: seq<Event>, budget: nat)
    requires OnlyParts(past) && OnlyParts(events) && Coherent(past + events)
    requires Well(s) && AllDoneOff(s, past)
    ensures OnlyParts(past + events) && Well(AttemptOff(s, events, budget))
    ensures DeliverOff(AttemptOff(s, events, budget), past + events) == DeliverOff(s, events)
    decreases |events|
  {
    hide PlanOff, DoneOff;
    if events == [] {
      DoneDeliversOff(s, past, events);
    } else {
      assert events[0] in events;
      var plan := PlanOff(s, events[0].message, events[0].index);
      if budget < |plan.ops| {
        CutResumesOff(s, past, events, budget);
      } else if !plan.ok {
        assert plan.ops[..|plan.ops|] == plan.ops;
        CutResumesOff(s, past, events, |plan.ops|);
      } else {
        OffMovesOn(s, past, events);
        AttemptResumesOff(Exec(s, plan.ops), past + [events[0]], events[1..], budget - |plan.ops|);
      }
    }
  }

  function AttemptsOff(s: Store, events: seq<Event>, budgets: seq<nat>): Store
    requires OnlyParts(events)
  {
    if budgets == [] then s
    else AttemptOff(AttemptsOff(s, events, budgets[..|budgets| - 1]), events, budgets[|budgets| - 1])
  }

  /**
   Resume equivalence with edits off: any number of dispatches of one revision, each cut off anywhere,
   followed by a full one, end in the very store of one uninterrupted dispatch.
   */
  lemma {:induction false} ResumeEquivalenceOff(s: Store, events: seq<Event>, budgets: seq<nat>)
    requires Well(s) && OnlyParts(events) && Coherent(events)
    ensures Well(AttemptsOff(s, events, budgets))
    ensures DeliverOff(AttemptsOff(s, events, budgets), events) == DeliverOff(s, events)
  {
    if budgets != [] {
      var before := AttemptsOff(s, events, budgets[..|budgets| - 1]);
      ResumeEquivalenceOff(s, events, budgets[..|budgets| - 1]);
      assert [] + events == events;
      AttemptResumesOff(before, [], events, budgets[|budgets| - 1]);
    }
  }

  /** How many durable operations a full dispatch of the events performs. */
  function CostOff(s: Store, events: seq<Event>): nat
    requires OnlyParts(events)
    decreases |events|
  {
    if events == [] then 0
    else
      assert events[0] in events;
      var plan := PlanOff(s, events[0].message, events[0].index);
      |plan.ops| + if plan.ok then CostOff(Exec(s, plan.ops), events[1..]) else 0
  }

  lemma {:induction false} EnoughIsAllOff(s: Store, events: seq<Event>, budget: nat)
    requires OnlyParts(events) && budget >= CostOff(s, events)
    ensures AttemptOff(s, events, budget) == DeliverOff(s, events).store
    decreases |events|
  {
    hide PlanOff;
    if events != [] {
      assert events[0] in events;
      var plan := PlanOff(s, events[0].message, events[0].index);
      if plan.ok { EnoughIsAllOff(Exec(s, plan.ops), events[1..], budget - |plan.ops|); }
    }
  }

  lemma {:induction false} DeliverIsDoneOff(s: Store, past: seq<Event>, events: seq<Event>)
    requires OnlyParts(past) && OnlyParts(events) && Coherent(past + events)
    requires Well(s) && AllDoneOff(s, past) && DeliverOff(s, events).ok
    ensures OnlyParts(past + events) && AllDoneOff(DeliverOff(s, events).store, past + events)
    decreases |events|
  {
    hide PlanOff, DoneOff;
    if events == [] {
      assert past + events == past;
    } else {
      assert events[0] in events;
      OffMovesOn(s, past, events);
      DeliverIsDoneOff(Exec(s, PlanOff(s, events[0].message, events[0].index).ops), past + [events[0]], events[1..]);
    }
  }

  /** Idempotence: a second dispatch with edits off sends nothing and changes nothing. */
  lemma DeliverTwiceOff(s: Store, events: seq<Event>)
    requires Well(s) && OnlyParts(events) && Coherent(events)
    ensures DeliverOff(DeliverOff(s, events).store, events) == DeliverOff(s, events)
  {
    assert [] + events == events;
    EnoughIsAllOff(s, events, CostOff(s, events));
    AttemptResumesOff(s, [], events, CostOff(s, events));
  }
}
