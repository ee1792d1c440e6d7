/**
 Lives of a room that nothing is assumed of: dispatches with edits on and with edits off, in any
 order, each cut off anywhere and perhaps given up for a later revision. What a dispatch then
 does is known exactly, and so is what goes wrong when a transaction is used again.
 */
module MirrorLives {
  import opened Mirror
  import opened MirrorResume
  import opened MirrorEvents
  import opened MirrorExact
  import opened MirrorPlain
  import opened MirrorOff
  import opened MirrorOffExact

  // ---------------------------------------------------------------- lives

  /**
   What may happen to a room: the outbox ties the user's own Matrix message to its source message;
   a revision is dispatched with edits on, or with edits off, and cut off anywhere or not at all.
   */
  datatype Turn =
    | Own(message: nat, text: Content, attachments: bool, mine: bool)
    | On(notice: Option<Checkpoint>, messages: seq<Message>, budget: nat)
    | Off(messages: seq<Message>, budget: nat)

  /** The framework inserts a row only where there is none. */
  predicate MayTake(s: Store, turn: Turn) {
    match turn
    case Own(message, _, _, _) => RowsOf(s.rows, Of(message)) == []
    case On(notice, messages, _) => Snapshot(messages) && ValidEvents(Dispatched(notice, messages))
    case Off(messages, _) => Snapshot(messages) && OnlyParts(EventsOf(messages))
  }

  function Taken(s: Store, turn: Turn): Store
    requires MayTake(s, turn)
  {
    match turn
    case Own(message, text, attachments, mine) => WithOwn(s, message, text, attachments, mine)
    case On(notice, messages, budget) => Attempt(s, Dispatched(notice, messages), budget)
    case Off(messages, budget) => AttemptOff(s, EventsOf(messages), budget)
  }

  predicate MayLive(s: Store, turns: seq<Turn>)
    decreases |turns|
  {
    turns == [] || (MayTake(s, turns[0]) && MayLive(Taken(s, turns[0]), turns[1..]))
  }

  function Lived(s: Store, turns: seq<Turn>): Store
    requires MayLive(s, turns)
    decreases |turns|
  {
    if turns == [] then s else Lived(Taken(s, turns[0]), turns[1..])
  }

  lemma OwnIsTied(s: Store, message: nat, text: Content, attachments: bool, mine: bool)
    requires Tied(s) && RowsOf(s.rows, Of(message)) == []
    ensures Tied(WithOwn(s, message, text, attachments, mine))
  {
    var next := WithOwn(s, message, text, attachments, mine);
    var row := OwnRow(|s.timeline|, text, attachments, mine);
    assert RowsOf(next.rows, Of(message)) == [row] && Find([row], 0) == Some(row);
    forall other: nat ensures RowsTied(next, other) {
      assert RowsTied(s, other);
      forall r | r in RowsOf(next.rows, Of(other)) ensures Owned(next, other, r) && HoldsOwn(r) {
        if other != message { assert Owned(s, other, r); }
      }
    }
    forall id: Id ensures Distinct(RowsOf(next.rows, id)) { assert Distinct(RowsOf(s.rows, id)); }
  }

  lemma TurnKeepsTied(s: Store, turn: Turn)
    requires Tied(s) && MayTake(s, turn)
    ensures Tied(Taken(s, turn))
  {
    match turn
    case Own(message, text, attachments, mine) => OwnIsTied(s, message, text, attachments, mine);
    case On(notice, messages, budget) => DispatchKeepsTied(s, notice, messages, budget);
    case Off(messages, budget) =>
      EventsOrdered([], messages);
      AttemptOffKeepsTied(s, [], EventsOf(messages), budget);
  }

  lemma {:induction false} LivesStayTied(s: Store, turns: seq<Turn>)
    requires Tied(s) && MayLive(s, turns)
    ensures Tied(Lived(s, turns))
    decreases |turns|
  {
    if turns != [] {
      TurnKeepsTied(s, turns[0]);
      LivesStayTied(Taken(s, turns[0]), turns[1..]);
    }
  }

  /**
   Exactly what a dispatch does after any life at all, however its retries are cut off: it
   succeeds exactly when no message is blocked, and then each message that reconciliation looks at
   is shown exactly when every request planned for it is new to the homeserver or was accepted for
   an event that shows the content anyway; the others are left as they were.
   */
  lemma LivesShowExactly(turns: seq<Turn>, notice: Option<Checkpoint>, messages: seq<Message>, cuts: seq<nat>)
    requires MayLive(Empty(), turns) && Snapshot(messages)
    ensures ValidEvents(Dispatched(notice, messages))
    ensures var s := Lived(Empty(), turns); var events := Dispatched(notice, messages);
      var outcome := Deliver(Attempts(s, events, cuts), events);
      && (outcome.ok <==> Unblocked(s, messages))
      && (Unblocked(s, messages) ==> forall m :: m in messages ==>
            if Settled(RowsOf(s.rows, Of(m.id)), m) then LeftAlone(s, outcome.store, m)
            else (Shows(outcome.store, m) <==> AllDue(s, m)))
  {
    hide Tied, Settled, LeftAlone, Shows, AllDue, Unsettled;
    var s := Lived(Empty(), turns);
    EmptyIsTied();
    LivesStayTied(Empty(), turns);
    TiedIsWell(s);
    DispatchSucceeds(s, notice, messages);
    DispatchedCoherent(notice, messages);
    ResumeEquivalence(s, Dispatched(notice, messages), cuts);
    if Unblocked(s, messages) {
      forall m | m in messages
        ensures var after := Deliver(s, Dispatched(notice, messages)).store;
          if Settled(RowsOf(s.rows, Of(m.id)), m) then LeftAlone(s, after, m) else (Shows(after, m) <==> AllDue(s, m))
      {
        SettledOrNot(RowsOf(s.rows, Of(m.id)), m);
        if Settled(RowsOf(s.rows, Of(m.id)), m) {
          DispatchLeavesSettled(s, notice, messages, m);
        } else {
          DispatchShowsExactly(s, notice, messages, m);
        }
      }
    }
  }

  /**
   The same of a dispatch with edits off, after any life: it succeeds exactly when no message is
   refused, and then each message whose parts it looks at shows them exactly when what it plans for
   each is new to the homeserver or shows already; the others are left as they were.
   */
  lemma LivesShowOffExactly(turns: seq<Turn>, messages: seq<Message>, cuts: seq<nat>)
    requires MayLive(Empty(), turns) && Snapshot(messages)
    ensures OnlyParts(EventsOf(messages))
    ensures var s := Lived(Empty(), turns);
      var outcome := DeliverOff(AttemptsOff(s, EventsOf(messages), cuts), EventsOf(messages));
      && (outcome.ok <==> forall m :: m in messages ==> !Refused(s, m))
      && (outcome.ok ==> forall m :: m in messages ==>
            if Looked(s, m) then AllShown(outcome.store, m) <==> AllDueOff(s, m) else LeftAlone(s, outcome.store, m))
  {
    hide Tied, Refused, LeftAlone, AllShown, AllDueOff, Looked;
    var s := Lived(Empty(), turns);
    EmptyIsTied();
    LivesStayTied(Empty(), turns);
    TiedIsWell(s);
    SnapshotEvents(messages);
    OffSucceeds(s, messages);
    ResumeEquivalenceOff(s, EventsOf(messages), cuts);
    if DeliverOff(s, EventsOf(messages)).ok {
      forall m | m in messages
        ensures var after := DeliverOff(s, EventsOf(messages)).store;
          if Looked(s, m) then AllShown(after, m) <==> AllDueOff(s, m) else LeftAlone(s, after, m)
      {
        if Looked(s, m) { OffDispatchShowsExactly(s, messages, m); } else { OffLeavesWhole(s, messages, m); }
      }
    }
  }

  lemma SettledOrNot(rows: seq<Row>, m: Message)
    ensures Settled(rows, m) <==> !Unsettled(rows, m)
  {
  }

  // ---------------------------------------------------------------- switching edits on again

  /**
   A presentation with edits off forgets how many edits its row has had. With edits on again, the
   next edit, to any content, repeats a transaction exactly when an edit of that part with
   generation 1, the same source and content was ever accepted; and its event then shows the
   content exactly when none was, or it shows the content anyway.
   */
  lemma SwitchedEditShowsExactly(s: Store, m: Message, index: nat, n: Message, content: Content)
    requires index < |m.parts| && n.id == m.id && Tied(s)
    requires var verdict := Judge(RowsOf(s.rows, Of(m.id)), m, index, None); verdict.Shown? && verdict.request.Some?
    ensures var next := Exec(s, PlanOff(s, m, index).ops); var row := Find(RowsOf(next.rows, Of(m.id)), index);
      var first := Edit(Of(m.id), index, 1, n.source, content);
      && row.Some? && row.value.meta.generation == 0
      && (EditOf(n, Change(row.value, content)).key in next.accepted <==>
            exists i: nat :: i < |s.timeline| && s.timeline[i].key == Some(first))
      && (Visible(Edited(next, n, Change(row.value, content)).timeline, row.value.event) == Some(content) <==>
            first !in s.accepted || Visible(next.timeline, row.value.event) == Some(content))
      && (Presentation(Of(m.id), index, m.parts[index]) !in s.accepted ==>
            Visible(next.timeline, row.value.event) == Some(m.parts[index]))
  {
    hide Tied, Visible, Judge, PlanOff;
    var rows := RowsOf(s.rows, Of(m.id));
    var verdict := Judge(rows, m, index, None);
    var next := Exec(s, PlanOff(s, m, index).ops);
    ShownHasRow(s, m, index);
    TiedRows(s, m.id);
    PresentedOps(s, m, index);
    FindAfterSet(rows, index, verdict.meta, index);
    var row := Find(RowsOf(next.rows, Of(m.id)), index).value;
    var present := PresentOf(m, index, row.event, m.parts[index]);
    VisibleAfter(s.timeline, Sent(Some(present.key), present.post), row.event);
    EditedShowsExactly(next, n, Change(row, content));
    TiedIsWell(s);
    var first := Edit(Of(m.id), index, 1, n.source, content);
    if first in s.accepted { assert s.timeline[s.accepted[first]].key == Some(first); }
  }

  // ---------------------------------------------------------------- transactions used again

  const TEXT := Source(Assistant, "text")

  /** One reply, however it is rendered. */
  function Reply(content: Content): Message {
    Message(1, TEXT, [content])
  }

  /** The reply has its row, which says what is shown; its event is the room's first. */
  predicate At(s: Store, shown: Content, count: nat, generation: nat) {
    && count <= 1 && s.timeline != []
    && RowsOf(s.rows, Of(1)) == [Row(0, 0, true, Metadata(TEXT, Some(shown), count, generation, false))]
  }

  /** One request: if its transaction was accepted before, the room does not change. */
  predicate Requested(s: Store, next: Store, key: Key, content: Content) {
    && next.accepted.Keys == s.accepted.Keys + {key}
    && Visible(next.timeline, 0) == if key in s.accepted then Visible(s.timeline, 0) else Some(content)
  }

  lemma OneEvent(content: Content)
    ensures Dispatched(None, [Reply(content)]) == [Part(Reply(content), 0)] == EventsOf([Reply(content)])
  {
    var m := Reply(content);
    assert PartsFrom(m, 1) == [] && PartsFrom(m, 0) == [Part(m, 0)];
    assert [m][1..] == [] && EventsOf([m]) == [Part(m, 0)] + [];
  }

  lemma RequestIs(s: Store, key: Key, content: Content)
    requires s.timeline != []
    ensures Requested(s, Apply(s, Send(key, Replace(0, content))), key, content)
  {
    VisibleAfter(s.timeline, Sent(Some(key), Replace(0, content)), 0);
  }

  lemma OnIs(s: Store, content: Content, budget: nat)
    ensures MayTake(s, On(None, [Reply(content)], budget))
    ensures var plan := PlanFor(s, Part(Reply(content), 0));
      && Taken(s, On(None, [Reply(content)], budget)) == Exec(s, if budget < |plan.ops| then plan.ops[..budget] else plan.ops)
      && Deliver(s, Dispatched(None, [Reply(content)])) == Outcome(Exec(s, plan.ops), plan.ok)
  {
    hide PlanFor;
    OneEvent(content);
    var plan := PlanFor(s, Part(Reply(content), 0));
    assert [Part(Reply(content), 0)][1..] == [];
    if budget >= |plan.ops| { assert Attempt(Exec(s, plan.ops), [], budget - |plan.ops|) == Exec(s, plan.ops); }
  }

  lemma OffIs(s: Store, content: Content, budget: nat)
    ensures MayTake(s, Off([Reply(content)], budget))
    ensures var plan := PlanOff(s, Reply(content), 0);
      Taken(s, Off([Reply(content)], budget)) == Exec(s, if budget < |plan.ops| then plan.ops[..budget] else plan.ops)
  {
    hide PlanOff;
    OneEvent(content);
    var plan := PlanOff(s, Reply(content), 0);
    assert [Part(Reply(content), 0)][1..] == [];
    if budget >= |plan.ops| { assert AttemptOff(Exec(s, plan.ops), [], budget - |plan.ops|) == Exec(s, plan.ops); }
  }

  /** The reply is sent for the first time, and stored unless cut off before. */
  lemma FirstTurn(content: Content, budget: nat)
    requires 1 <= budget <= 2
    ensures MayTake(Empty(), On(None, [Reply(content)], budget))
    ensures var next := Taken(Empty(), On(None, [Reply(content)], budget));
      && next.accepted == map[Original(Of(1), 0) := 0] && Visible(next.timeline, 0) == Some(content)
      && (if budget == 2 then At(next, content, 0, 0) else next.timeline != [] && RowsOf(next.rows, Of(1)) == [])
  {
    hide Taken;
    var m := Reply(content);
    var addition := Addition(m, 0);
    OnIs(Empty(), content, budget);
    EmptyPlan(Empty(), m);
    TwoOps(Empty(), addition[0], addition[1]);
    VisibleAfter([], Sent(Some(Original(Of(1), 0)), New(content)), 0);
    assert [] + [Sent(Some(Original(Of(1), 0)), New(content))] == [Sent(Some(Original(Of(1), 0)), New(content))];
  }

  /** A dispatch with edits on edits the reply's event, and updates its row unless cut off before. */
  lemma EditTurn(s: Store, shown: Content, count: nat, generation: nat, content: Content, budget: nat)
    requires At(s, shown, count, generation) && content != shown && 1 <= budget <= 2
    ensures MayTake(s, On(None, [Reply(content)], budget)) && Deliver(s, Dispatched(None, [Reply(content)])).ok
    ensures var next := Taken(s, On(None, [Reply(content)], budget)); var after := Deliver(s, Dispatched(None, [Reply(content)])).store;
      var key := Edit(Of(1), 0, generation + 1, TEXT, content);
      && Requested(s, next, key, content) && Requested(s, after, key, content) && At(after, content, 1, generation + 1)
      && (if budget == 2 then next == after else At(next, shown, count, generation))
  {
    hide Taken, Deliver, Requested, PlanFor;
    var m := Reply(content);
    var row := RowsOf(s.rows, Of(1))[0];
    var c := Change(row, content);
    OnIs(s, content, budget);
    OneRowPlan(s, m, row);
    TwoOps(s, EditOf(m, c), SaveOf(m, c));
    RequestIs(s, EditOf(m, c).key, content);
    assert SetMeta([row], 0, EditedMeta(m, c)) == [row.(meta := EditedMeta(m, c))];
    SaveLeaves(s, Apply(s, EditOf(m, c)), SaveOf(m, c), EditOf(m, c).key, content);
  }

  lemma SaveLeaves(s: Store, sent: Store, save: Op, key: Key, content: Content)
    requires save.Save? && Requested(s, sent, key, content)
    ensures Requested(s, Apply(sent, save), key, content)
  {
  }

  lemma OneRowPlan(s: Store, m: Message, row: Row)
    requires |m.parts| == 1 && RowsOf(s.rows, Of(m.id)) == [row] && row.part == 0 && row.mine
    requires !Settling(row, m) && !UpToDate(row, m, m.parts[0])
    ensures var c := Change(row, m.parts[0]); PlanFor(s, Part(m, 0)) == Plan([EditOf(m, c), SaveOf(m, c)], true)
  {
    var rows := [row];
    var c := Change(row, m.parts[0]);
    assert rows[1..] == [] && Find(rows, 0) == Some(row);
    assert Scanned(rows, m) == [row] by { assert Scanned([], m) == []; }
    assert Stale(rows, m) == [] by { assert Stale([], m) == []; }
    assert Changes(rows, m, 0) == [c] by { assert [] + [c] == [c]; }
    assert Marked(rows, m, 0) == [c] by { assert Marked([], m, 0) == [] && [c] + [] == [c]; }
    EditedPlan(s, m, 0);
    assert [c][1..] == [] && Edits(m, [c]) == [EditOf(m, c)] && Saves(m, [c]) == [SaveOf(m, c)];
  }

  /** A dispatch with edits off presents the reply anew. */
  lemma OffTurn(s: Store, shown: Content, count: nat, generation: nat, content: Content)
    requires At(s, shown, count, generation) && content != shown
    ensures MayTake(s, Off([Reply(content)], 2))
    ensures var next := Taken(s, Off([Reply(content)], 2));
      Requested(s, next, Presentation(Of(1), 0, content), content) && At(next, content, count, 0)
  {
    hide Taken, Requested, PlanOff;
    var m := Reply(content);
    var row := RowsOf(s.rows, Of(1))[0];
    var save := Save(Of(1), 0, Metadata(TEXT, Some(content), count, 0, false));
    OffIs(s, content, 2);
    OneRowOff(s, m, row);
    TwoOps(s, PresentOf(m, 0, 0, content), save);
    RequestIs(s, Presentation(Of(1), 0, content), content);
    SaveLeaves(s, Apply(s, PresentOf(m, 0, 0, content)), save, Presentation(Of(1), 0, content), content);
    assert SetMeta([row], 0, save.meta) == [row.(meta := save.meta)];
  }

  lemma OneRowOff(s: Store, m: Message, row: Row)
    requires |m.parts| == 1 && m.source.role.Assistant? && RowsOf(s.rows, Of(m.id)) == [row] && row.part == 0 && row.mine
    requires row.meta.hash == m.source && row.meta.count <= 1 && row.meta.shown.Some? && row.meta.shown != Some(m.parts[0])
    ensures var meta := Metadata(m.source, Some(m.parts[0]), row.meta.count, 0, false);
      PlanOff(s, m, 0) == Plan([PresentOf(m, 0, row.event, m.parts[0]), Save(Of(m.id), 0, meta)], true)
  {
    var meta := Metadata(m.source, Some(m.parts[0]), row.meta.count, 0, false);
    assert [row][1..] == [] && Find([row], 0) == Some(row);
    JudgeByTarget([row], m, 0, None, row);
    assert SetMeta([row], 0, meta) == [row.(meta := meta)];
    assert [PresentOf(m, 0, row.event, m.parts[0])] + [Save(Of(m.id), 0, meta)] == [PresentOf(m, 0, row.event, m.parts[0]), Save(Of(m.id), 0, meta)];
  }

  /** A dispatch succeeds and the reply's row says so, but the room shows something else. */
  predicate Misleads(outcome: Outcome, m: Message)
    requires |m.parts| > 0
  {
    var row := Find(RowsOf(outcome.store.rows, Of(m.id)), 0);
    outcome.ok && !Shows(outcome.store, m) && row.Some? && row.value.meta.shown == Some(m.parts[0])
  }

  lemma AtMisleads(s: Store, count: nat, generation: nat, content: Content)
    requires At(s, content, count, generation) && Visible(s.timeline, 0) != Some(content)
    ensures Misleads(Outcome(s, true), Reply(content))
  {
    var m := Reply(content);
    assert m.parts[0] == content && Find(RowsOf(s.rows, Of(1)), 0).value.event == 0;
  }

  /**
   Why retries must keep to one revision: a part accepted but not committed, and then changed at
   the source, ends with a row that says the new content and an event that shows the old.
   */
  lemma LostCommitThenChange()
    ensures var turns := [On(None, [Reply("a")], 1)];
      && MayLive(Empty(), turns) && ValidEvents(Dispatched(None, [Reply("b")]))
      && Misleads(Deliver(Lived(Empty(), turns), Dispatched(None, [Reply("b")])), Reply("b"))
  {
    hide Taken, MayTake, Deliver, Shows;
    var m := Reply("b");
    var turns := [On(None, [Reply("a")], 1)];
    FirstTurn("a", 1);
    var s := Taken(Empty(), turns[0]);
    Turns([Empty(), s], turns);
    OnIs(s, "b", 2);
    EmptyPlan(s, m);
    AddedEvent(s, m, 0);
    assert [] + [Row(0, 0, true, NewMeta(m, 0))] == [Row(0, 0, true, NewMeta(m, 0))];
    assert "a" != "b";
    AtMisleads(Added(s, m, 0), 0, 0, "b");
  }

  /** The same of edits: two edits accepted but not committed, and a return to the first. */
  lemma LostEditsThenReturn()
    ensures var turns := [On(None, [Reply("z")], 2), On(None, [Reply("a")], 1), On(None, [Reply("b")], 1)];
      && MayLive(Empty(), turns) && ValidEvents(Dispatched(None, [Reply("a")]))
      && Misleads(Deliver(Lived(Empty(), turns), Dispatched(None, [Reply("a")])), Reply("a"))
  {
    hide Taken, MayTake, Deliver, Visible, At, Misleads, Lived, MayLive;
    var turns := [On(None, [Reply("z")], 2), On(None, [Reply("a")], 1), On(None, [Reply("b")], 1)];
    assert "z" != "a" && "z" != "b" && "a" != "b";
    FirstTurn("z", 2);
    var s1 := Taken(Empty(), turns[0]);
    EditTurn(s1, "z", 0, 0, "a", 1);
    var s2 := Taken(s1, turns[1]);
    EditTurn(s2, "z", 0, 0, "b", 1);
    var s3 := Taken(s2, turns[2]);
    Turns([Empty(), s1, s2, s3], turns);
    EditTurn(s3, "z", 0, 0, "a", 2);
    AtMisleads(Deliver(s3, Dispatched(None, [Reply("a")])).store, 1, 1, "a");
    DispatchIsValid("a");
  }

  /**
   Edited to "a" and to "b", presented as "c" with edits off and then, with edits on again, returned
   to "a": the first edit's transaction is used again, and the room keeps showing "c".
   */
  lemma ReturnAfterSwitching()
    ensures var turns := [On(None, [Reply("z")], 2), On(None, [Reply("a")], 2), On(None, [Reply("b")], 2), Off([Reply("c")], 2)];
      && MayLive(Empty(), turns) && ValidEvents(Dispatched(None, [Reply("a")]))
      && Misleads(Deliver(Lived(Empty(), turns), Dispatched(None, [Reply("a")])), Reply("a"))
  {
    hide Taken, MayTake, Deliver, Visible, At, Misleads, Lived, MayLive;
    var turns := [On(None, [Reply("z")], 2), On(None, [Reply("a")], 2), On(None, [Reply("b")], 2), Off([Reply("c")], 2)];
    assert "z" != "a" && "b" != "a" && "b" != "c" && "c" != "a";
    FirstTurn("z", 2);
    var s1 := Taken(Empty(), turns[0]);
    EditTurn(s1, "z", 0, 0, "a", 2);
    var s2 := Taken(s1, turns[1]);
    EditTurn(s2, "a", 1, 1, "b", 2);
    var s3 := Taken(s2, turns[2]);
    OffTurn(s3, "b", 1, 2, "c");
    var s4 := Taken(s3, turns[3]);
    Turns([Empty(), s1, s2, s3, s4], turns);
    EditTurn(s4, "c", 1, 0, "a", 2);
    AtMisleads(Deliver(s4, Dispatched(None, [Reply("a")])).store, 1, 1, "a");
    DispatchIsValid("a");
  }

  /** With edits off alone, a presentation returned to is the same transaction again. */
  lemma ReturnWithEditsOff()
    ensures var turns := [On(None, [Reply("z")], 2), Off([Reply("a")], 2), Off([Reply("b")], 2), Off([Reply("a")], 2)];
      MayLive(Empty(), turns) && Misleads(Outcome(Lived(Empty(), turns), true), Reply("a"))
  {
    hide Taken, MayTake, Visible, At, Misleads, Lived, MayLive;
    var turns := [On(None, [Reply("z")], 2), Off([Reply("a")], 2), Off([Reply("b")], 2), Off([Reply("a")], 2)];
    assert "z" != "a" && "b" != "a";
    FirstTurn("z", 2);
    var s1 := Taken(Empty(), turns[0]);
    OffTurn(s1, "z", 0, 0, "a");
    var s2 := Taken(s1, turns[1]);
    OffTurn(s2, "a", 0, 0, "b");
    var s3 := Taken(s2, turns[2]);
    OffTurn(s3, "b", 0, 0, "a");
    var s4 := Taken(s3, turns[3]);
    Turns([Empty(), s1, s2, s3, s4], turns);
    AtMisleads(s4, 0, 0, "a");
  }

  lemma DispatchIsValid(content: Content)
    ensures ValidEvents(Dispatched(None, [Reply(content)]))
  {
    OneEvent(content);
  }

  /** A life given store by store. */
  lemma {:induction false} Turns(stores: seq<Store>, turns: seq<Turn>)
    requires |stores| == |turns| + 1
    requires forall k :: 0 <= k < |turns| ==> MayTake(stores[k], turns[k]) && stores[k + 1] == Taken(stores[k], turns[k])
    ensures MayLive(stores[0], turns) && Lived(stores[0], turns) == stores[|turns|]
    decreases |turns|
  {
    hide Taken, MayTake;
    if turns != [] {
      assert stores[0 + 1] == Taken(stores[0], turns[0]);
      assert forall k :: 0 <= k < |turns[1..]| ==> turns[1..][k] == turns[k + 1] && stores[1..][k] == stores[k + 1];
      Turns(stores[1..], turns[1..]);
    }
  }
}
