/**
 Safety of the outbound protocol over every run of the bridge, competing adapter processes
 and the task owner: at most one submission per Matrix event, no echo, and an outbox entry
 that is only ever settled, never replaced.
 */
module OutboundSafety {
  import opened Journal
  import opened Outbound
  import JournalSafety

  // ---------------------------------------------------------------- what adapter steps leave alone

  /** Rollouts only grow, processes keep their requests, and none appears. */
  lemma AdapterFrame(a: Journal.World, step: Journal.Action)
    requires Journal.Inv(a) && !step.Spawn?
    ensures forall p: nat, x :: x in Log(a, p) ==> x in Log(Journal.Next(a, step), p)
    ensures var v := Journal.Next(a, step);
      forall q :: q in v.procs ==> q in a.procs && v.procs[q].request == a.procs[q].request
  {
  }

  lemma AcceptedStays(a: Journal.World, step: Journal.Action, request: Request, message: nat)
    requires Journal.Inv(a) && IsAccepted(a, request, message)
    ensures IsAccepted(Journal.Next(a, step), request, message)
  {
    JournalSafety.AcceptedStep(a, step, request.transaction);
  }

  lemma QuietStays(a: Journal.World, step: Journal.Action, t: Transaction)
    requires Journal.Inv(a) && !step.Spawn? && Quiet(a, t)
    ensures Quiet(Journal.Next(a, step), t)
  {
    AdapterFrame(a, step);
  }

  lemma SoleServerStays(a: Journal.World, step: Journal.Action, t: Transaction, pid: nat)
    requires Journal.Inv(a) && !step.Spawn? && SoleServer(a, t, pid)
    requires pid in a.procs ==> a.procs[pid].request.transaction == t
    ensures SoleServer(Journal.Next(a, step), t, pid)
  {
    AdapterFrame(a, step);
    var v := Journal.Next(a, step);
    if step.Act? && step.pid == pid && pid in v.procs && Unsubmitted(v.procs[pid].phase) {
      SubmitsNothing(a, pid, step.move);
    }
  }

  /** A process that says it submitted nothing after its step had submitted nothing before, or was refused. */
  lemma SubmitsNothing(a: Journal.World, pid: nat, move: Move)
    requires pid in a.procs && PhaseOk(a, a.procs[pid].request, a.procs[pid].phase)
    requires var v := Journal.Next(a, Act(pid, move)); pid in v.procs && Unsubmitted(v.procs[pid].phase)
    requires Unsubmitted(a.procs[pid].phase) ==> Idle(a, a.procs[pid].request.transaction)
    ensures Idle(Journal.Next(a, Act(pid, move)), a.procs[pid].request.transaction)
  {
    var response := Journal.Response(a, a.procs[pid], move);
    if response.Some? && response.value.record.Some? { OnlyRefusalsRelease(a, a.procs[pid], move); }
    if !Unsubmitted(a.procs[pid].phase) { OnlyRefusalsRelease(a, a.procs[pid], move); }
  }

  /** Ending without a submission, after being called upon to submit, means writing not_sent. */
  lemma OnlyRefusalsRelease(a: Journal.World, process: Process, move: Move)
    requires Journal.Response(a, process, move).Some?
    ensures var effect := Journal.Response(a, process, move).value;
      effect.phase.Some? && Unsubmitted(effect.phase.value) ==>
        if Unsubmitted(process.phase) then effect.record == None else effect.record == Some(NotSent)
  {
  }

  lemma AdapterKeepsInv(b: Outbound.World, step: Journal.Action)
    requires Outbound.Inv(b)
    ensures Outbound.Inv(Outbound.Next(b, Adapter(step)))
  {
    if !step.Spawn? {
      var c := Outbound.Next(b, Adapter(step));
      JournalSafety.NextKeepsInv(b.adapter, step);
      AdapterFrame(b.adapter, step);
      forall key | key in c.rows ensures RowOk(c, key) {
        assert RowOk(b, key);
        if b.rows[key].FromMatrix? { JournalSafety.AcceptedStep(b.adapter, step, b.rows[key].transaction); }
      }
      forall t: Transaction ensures Pending(c, t) || HasRow(c.rows, t) || Quiet(c.adapter, t) {
        if Quiet(b.adapter, t) { QuietStays(b.adapter, step, t); }
        assert Pending(b, t) || HasRow(b.rows, t) || Quiet(b.adapter, t);
      }
      forall p | p in c.handlers ensures StageOk(c, p, c.handlers[p]) { StageStays(b, step, p, b.handlers[p]); }
      forall p | p in c.direct ensures StageOk(c, p, c.direct[p]) { StageStays(b, step, p, b.direct[p]); }
    }
  }

  lemma StageStays(b: Outbound.World, step: Journal.Action, p: nat, handler: Handler)
    requires Outbound.Inv(b) && !step.Spawn? && StageOk(b, p, handler)
    ensures StageOk(Outbound.Next(b, Adapter(step)), p, handler)
  {
    var Handler(task, stage) := handler;
    AdapterFrame(b.adapter, step);
    match stage {
      case Keeping(out, message) => AcceptedStays(b.adapter, step, out.request, message);
      case Storing(message) => AcceptedStays(b.adapter, step, task.entry.request, message);
      case Sending(pid) =>
        var t := task.entry.request.transaction;
        if SoleServer(b.adapter, t, pid) { SoleServerStays(b.adapter, step, t, pid); }
      case Prepared =>
        var t := task.entry.request.transaction;
        if Quiet(b.adapter, t) { QuietStays(b.adapter, step, t); }
      case Rejecting =>
        var t := task.entry.request.transaction;
        if Quiet(b.adapter, t) { QuietStays(b.adapter, step, t); }
      case _ =>
    }
  }

  // ---------------------------------------------------------------- store operations keep the invariant

  /** Where a handler runs: in its portal's queue, or as a recovery outside it. */
  datatype Lane = Queued | Beside

  function Handlers(b: Outbound.World, lane: Lane): map<nat, Handler> {
    if lane.Queued? then b.handlers else b.direct
  }

  function Other(lane: Lane): Lane {
    if lane.Queued? then Beside else Queued
  }

  function Moved(b: Outbound.World, lane: Lane, portal: nat, stage: Option<Stage>): Outbound.World
    requires portal in Handlers(b, lane)
  {
    if lane.Queued? then b.(handlers := Outbound.Advance(b.handlers, portal, stage))
    else b.(direct := Outbound.Advance(b.direct, portal, stage))
  }

  predicate NewStageOk(b: Outbound.World, lane: Lane, portal: nat, stage: Option<Stage>)
    requires portal in Handlers(b, lane)
  {
    stage.Some? ==> StageOk(b, portal, Handler(Handlers(b, lane)[portal].task, stage.value))
  }

  lemma StillSubmits(b: Outbound.World, c: Outbound.World, request: Request, stage: Stage)
    requires SubmitOk(b, request, stage) && b.next <= c.next
    requires HasRow(b.rows, request.transaction) ==> HasRow(c.rows, request.transaction)
    requires c.adapter.journal == b.adapter.journal && c.adapter.rollout == b.adapter.rollout
    requires forall q :: q in c.adapter.procs && (q < b.next || c.adapter.procs[q].request.transaction == request.transaction) ==>
                           q in b.adapter.procs && c.adapter.procs[q] == b.adapter.procs[q]
    ensures SubmitOk(c, request, stage)
  {
    hide HasRow;
  }

  /** What a step of one portal's handler leaves alone: what others see of the adapter, and rows that are there. */
  ghost predicate Framed(b: Outbound.World, c: Outbound.World, portal: nat) {
    && (forall p: nat :: p != portal ==> (p in b.outbox <==> p in c.outbox) && (p in b.outbox ==> c.outbox[p] == b.outbox[p]))
    && (forall t: Transaction :: HasRow(b.rows, t) ==> HasRow(c.rows, t))
    && c.adapter.journal == b.adapter.journal && c.adapter.rollout == b.adapter.rollout && b.next <= c.next
    && (forall q :: q in c.adapter.procs && c.adapter.procs[q].request.transaction.portal != portal ==>
          q in b.adapter.procs && c.adapter.procs[q] == b.adapter.procs[q])
    && (forall q :: q in c.adapter.procs && q < b.next ==> q in b.adapter.procs && c.adapter.procs[q] == b.adapter.procs[q])
  }

  /** The portal's entry is kept, or deleted once its event has a row. */
  predicate EntryKept(b: Outbound.World, c: Outbound.World, portal: nat) {
    && (portal in c.outbox ==> portal in b.outbox && c.outbox[portal] == b.outbox[portal])
    && (portal in b.outbox && portal !in c.outbox ==> HasRow(c.rows, b.outbox[portal].request.transaction))
  }

  lemma ElsewhereStays(b: Outbound.World, c: Outbound.World, portal: nat, p: nat, handler: Handler)
    requires Framed(b, c, portal) && p != portal && StageOk(b, p, handler)
    ensures StageOk(c, p, handler)
  {
    hide HasRow;
    var Handler(task, stage) := handler;
    if task.Reply? && SubmitOk(b, task.entry.request, stage) { StillSubmits(b, c, task.entry.request, stage); }
  }

  /** A handler beside the one that moved, in the same portal, still stands where it may. */
  lemma NeighbourStays(b: Outbound.World, c: Outbound.World, portal: nat, handler: Handler)
    requires Framed(b, c, portal) && EntryKept(b, c, portal) && !handler.task.Reply? && StageOk(b, portal, handler)
    ensures StageOk(c, portal, handler)
  {
    hide HasRow;
  }

  /** A change made by one handler leaves all the others where they may stand. */
  lemma OtherStages(b: Outbound.World, c: Outbound.World, lane: Lane, portal: nat, stage: Option<Stage>)
    requires Stages(b) && portal in Handlers(b, lane) && Framed(b, c, portal)
    requires c.handlers == Moved(b, lane, portal, stage).handlers && c.direct == Moved(b, lane, portal, stage).direct
    requires portal in Handlers(c, lane) ==> StageOk(c, portal, Handlers(c, lane)[portal])
    requires portal in Handlers(b, Other(lane)) ==> EntryKept(b, c, portal)
    ensures Stages(c)
  {
    hide Framed, EntryKept, StageOk;
    forall p | p in c.handlers ensures StageOk(c, p, c.handlers[p]) {
      if p != portal {
        ElsewhereStays(b, c, portal, p, b.handlers[p]);
      } else if lane.Beside? {
        NeighbourStays(b, c, portal, b.handlers[p]);
      }
    }
    forall p | p in c.direct ensures StageOk(c, p, c.direct[p]) && c.direct[p].task.Settle? && !Replying(c, p) {
      if p != portal {
        ElsewhereStays(b, c, portal, p, b.direct[p]);
      } else if lane.Queued? {
        NeighbourStays(b, c, portal, b.direct[p]);
      }
    }
  }

  /** With the stores as they were, only where handlers stand matters. */
  lemma StoresKept(b: Outbound.World, c: Outbound.World)
    requires Outbound.Inv(b) && c == b.(handlers := c.handlers, direct := c.direct) && Stages(c)
    ensures Outbound.Inv(c)
  {
    hide Journal.Inv, StageOk;
    forall t: Transaction ensures Pending(c, t) || HasRow(c.rows, t) || Quiet(c.adapter, t) {
      assert Pending(b, t) || HasRow(b.rows, t) || Quiet(b.adapter, t);
    }
    forall key | key in c.rows ensures RowOk(c, key) { assert RowOk(b, key); }
  }

  lemma KeepCase(b: Outbound.World, lane: Lane, portal: nat, stage: Option<Stage>)
    requires Outbound.Inv(b) && portal in Handlers(b, lane) && NewStageOk(b, lane, portal, stage)
    ensures Outbound.Inv(Apply(Moved(b, lane, portal, stage), portal, Keep))
  {
    hide Journal.Inv, StageOk;
    var c := Moved(b, lane, portal, stage);
    StagesSee(b, c);
    OtherStages(b, c, lane, portal, stage);
    StoresKept(b, c);
  }

  /** Where a handler may stand is a matter of the stores alone. */
  lemma StagesSee(b: Outbound.World, c: Outbound.World)
    requires c == b.(handlers := c.handlers, direct := c.direct)
    ensures forall p, handler :: StageOk(b, p, handler) ==> StageOk(c, p, handler)
  {
  }

  lemma StoreFramed(b: Outbound.World, portal: nat, entry: Entry)
    requires portal in b.handlers
    ensures Framed(b, Apply(Moved(b, Queued, portal, Some(Prepared)), portal, Store(entry)), portal)
  {
  }

  /** The stored entry's handler may send it. */
  lemma PreparedStands(b: Outbound.World, c: Outbound.World, portal: nat, entry: Entry)
    requires entry.request.transaction.portal == portal && portal in c.outbox && c.outbox[portal] == entry
    requires HasRow(b.rows, entry.request.transaction) || Quiet(b.adapter, entry.request.transaction)
    requires c.rows == b.rows && c.adapter == b.adapter
    ensures StageOk(c, portal, Handler(Reply(entry), Prepared))
  {
  }

  /** A reply's handler is alone in its portal, and its event's fate is known. */
  lemma ReplyStands(b: Outbound.World, portal: nat, entry: Entry)
    requires Outbound.Inv(b) && portal in b.handlers && b.handlers[portal] == Handler(Reply(entry), Running)
    ensures var t := entry.request.transaction;
      t.portal == portal && portal !in b.outbox && portal !in b.direct && (HasRow(b.rows, t) || Quiet(b.adapter, t))
  {
    hide Journal.Inv;
    assert StageOk(b, portal, b.handlers[portal]);
    var t := entry.request.transaction;
    assert Pending(b, t) || HasRow(b.rows, t) || Quiet(b.adapter, t);
  }

  lemma StoreCase(b: Outbound.World, portal: nat, entry: Entry)
    requires Outbound.Inv(b) && portal in b.handlers && b.handlers[portal] == Handler(Reply(entry), Running)
    ensures Outbound.Inv(Apply(Moved(b, Queued, portal, Some(Prepared)), portal, Store(entry)))
  {
    hide Journal.Inv, Framed, Held, SubmitOk, StageOk;
    var c := Apply(Moved(b, Queued, portal, Some(Prepared)), portal, Store(entry));
    StoreFramed(b, portal, entry);
    ReplyStands(b, portal, entry);
    PreparedStands(b, c, portal, entry);
    forall s: Transaction ensures Pending(c, s) || HasRow(c.rows, s) || Quiet(c.adapter, s) {
      assert Pending(b, s) || HasRow(b.rows, s) || Quiet(b.adapter, s);
    }
    forall key | key in c.rows ensures RowOk(c, key) { assert RowOk(b, key); }
    OtherStages(b, c, Queued, portal, Some(Prepared));
  }

  /** Deleting an outbox entry is safe once its event has a row, or nothing of it is under way. */
  lemma DeleteCase(b: Outbound.World, lane: Lane, portal: nat, stage: Option<Stage>)
    requires Outbound.Inv(b) && portal in Handlers(b, lane)
    requires portal in b.outbox ==>
      var t := b.outbox[portal].request.transaction;
      HasRow(b.rows, t) || (Quiet(b.adapter, t) && portal !in Handlers(b, Other(lane)))
    requires stage == None || stage == Some(Running)
    ensures Outbound.Inv(Apply(Moved(b, lane, portal, stage), portal, Delete))
  {
    hide Journal.Inv, Framed, Held, SubmitOk;
    var c := Apply(Moved(b, lane, portal, stage), portal, Delete);
    DeleteFramed(b, lane, portal, stage);
    StageHolds(b, lane, portal);
    forall s: Transaction ensures Pending(c, s) || HasRow(c.rows, s) || Quiet(c.adapter, s) {
      assert Pending(b, s) || HasRow(b.rows, s) || Quiet(b.adapter, s);
    }
    forall key | key in c.rows ensures RowOk(c, key) { assert RowOk(b, key); }
    OtherStages(b, c, lane, portal, stage);
  }

  lemma DeleteFramed(b: Outbound.World, lane: Lane, portal: nat, stage: Option<Stage>)
    requires portal in Handlers(b, lane)
    ensures Framed(b, Apply(Moved(b, lane, portal, stage), portal, Delete), portal)
  {
  }

  lemma InsertCase(b: Outbound.World, lane: Lane, portal: nat, stage: Stage, out: Entry, message: nat)
    requires Outbound.Inv(b) && portal in Handlers(b, lane) && (portal, message) !in b.rows
    requires Held(b, portal, out) && IsAccepted(b.adapter, out.request, message)
    requires stage == Settling(out) || (stage == Clearing && Handlers(b, lane)[portal].task == Reply(out) && portal in b.outbox)
    ensures Outbound.Inv(Apply(Moved(b, lane, portal, Some(stage)), portal, Insert(message, out.request.transaction, out.request.text)))
  {
    hide Journal.Inv, Framed, StageOk, EntryKept;
    var c := Apply(Moved(b, lane, portal, Some(stage)), portal, Insert(message, out.request.transaction, out.request.text));
    RowFramed(b, lane, portal, stage, out.request, message);
    AssociatedStands(b, lane, portal, stage, out, message);
    EventsKept(b, c, portal);
    forall key | key in c.rows ensures RowOk(c, key) { if key != (portal, message) { assert RowOk(b, key); } }
    OtherStages(b, c, lane, portal, Some(stage));
  }

  /** With the event's row in place, the handler may go on to settle its entry. */
  lemma AssociatedStands(b: Outbound.World, lane: Lane, portal: nat, stage: Stage, out: Entry, message: nat)
    requires Stages(b) && portal in Handlers(b, lane) && (portal, message) !in b.rows && Held(b, portal, out)
    requires stage == Settling(out) || (stage == Clearing && Handlers(b, lane)[portal].task == Reply(out) && portal in b.outbox)
    ensures var c := Apply(Moved(b, lane, portal, Some(stage)), portal, Insert(message, out.request.transaction, out.request.text));
      StageOk(c, portal, Handler(Handlers(b, lane)[portal].task, stage)) && EntryKept(b, c, portal)
  {
    hide SubmitOk;
    StandsAt(b, lane, portal);
    RowFramed(b, lane, portal, stage, out.request, message);
    var c := Apply(Moved(b, lane, portal, Some(stage)), portal, Insert(message, out.request.transaction, out.request.text));
    if stage.Clearing? { ClearingOk(c, out.request); }
  }

  lemma ClearingOk(c: Outbound.World, request: Request)
    requires HasRow(c.rows, request.transaction)
    ensures SubmitOk(c, request, Clearing)
  {
  }

  lemma StandsAt(b: Outbound.World, lane: Lane, portal: nat)
    requires Stages(b) && portal in Handlers(b, lane)
    ensures StageOk(b, portal, Handlers(b, lane)[portal])
  {
  }

  /** With the portals' entries and all rows kept, no event is lost sight of. */
  lemma EventsKept(b: Outbound.World, c: Outbound.World, portal: nat)
    requires Framed(b, c, portal) && EntryKept(b, c, portal) && c.adapter == b.adapter
    requires forall t: Transaction :: Pending(b, t) || HasRow(b.rows, t) || Quiet(b.adapter, t)
    ensures forall t: Transaction :: Pending(c, t) || HasRow(c.rows, t) || Quiet(c.adapter, t)
  {
    hide HasRow, Quiet;
    forall t: Transaction ensures Pending(c, t) || HasRow(c.rows, t) || Quiet(c.adapter, t) {
      assert Pending(b, t) || HasRow(b.rows, t) || Quiet(b.adapter, t);
    }
  }

  lemma RowFramed(b: Outbound.World, lane: Lane, portal: nat, stage: Stage, request: Request, message: nat)
    requires portal in Handlers(b, lane) && (portal, message) !in b.rows
    ensures var c := Apply(Moved(b, lane, portal, Some(stage)), portal, Insert(message, request.transaction, request.text));
      Framed(b, c, portal) && HasRow(c.rows, request.transaction)
  {
    var c := Apply(Moved(b, lane, portal, Some(stage)), portal, Insert(message, request.transaction, request.text));
    forall t: Transaction | HasRow(b.rows, t) ensures HasRow(c.rows, t) {
      var key :| key in b.rows && b.rows[key].FromMatrix? && b.rows[key].transaction == t;
      assert c.rows[key] == b.rows[key];
    }
    assert c.rows[(portal, message)].transaction == request.transaction;
  }

  /** An item that came from a Matrix event no longer in the outbox is tied to that event by its row. */
  lemma ItemHasRow(b: Outbound.World, portal: nat, item: Item)
    requires Outbound.Inv(b) && item in Log(b.adapter, portal) && item.client.Some? && !Pending(b, item.client.value)
    ensures (portal, item.id) in b.rows && b.rows[(portal, item.id)] == FromMatrix(item.client.value, item.text)
  {
    var t := item.client.value;
    assert LogOk(Log(b.adapter, portal), portal);
    assert AtMostOneCall(b.adapter, t) && RecordOk(b.adapter, t);
    JournalSafety.CountMember(Log(b.adapter, portal), item, t);
    assert Pending(b, t) || HasRow(b.rows, t) || Quiet(b.adapter, t);
    var key :| key in b.rows && b.rows[key].FromMatrix? && b.rows[key].transaction == t;
    assert RowOk(b, key);
    JournalSafety.CountUnique(Log(b.adapter, portal), item, Item(key.1, Some(t), true, b.rows[key].text), t);
  }

  lemma DisplayCase(b: Outbound.World, portal: nat, item: Item, committed: bool)
    requires Outbound.Inv(b) && portal in b.handlers && b.handlers[portal] == Handler(Show(item), Running)
    requires (portal, item.id) !in b.rows
    ensures Outbound.Inv(Apply(Moved(b, Queued, portal, None), portal, Display(item, committed)))
  {
    var c := Apply(Moved(b, Queued, portal, None), portal, Display(item, committed));
    assert StageOk(b, portal, b.handlers[portal]);
    if item.client.Some? { ItemHasRow(b, portal, item); }
    forall t: Transaction | HasRow(b.rows, t) ensures HasRow(c.rows, t) {
      var key :| key in b.rows && b.rows[key].FromMatrix? && b.rows[key].transaction == t;
      assert key in c.rows && c.rows[key] == b.rows[key];
    }
    forall s: Transaction ensures Pending(c, s) || HasRow(c.rows, s) || Quiet(c.adapter, s) {
      assert Pending(b, s) || HasRow(b.rows, s) || Quiet(b.adapter, s);
    }
    forall key | key in c.rows ensures RowOk(c, key) { if key in b.rows { assert RowOk(b, key); } }
    OtherStages(b, c, Queued, portal, None);
  }

  /** The stage a handler reaches by starting an adapter process for its portal's entry. */
  predicate Starts(b: Outbound.World, lane: Lane, portal: nat, stage: Stage)
    requires portal in b.outbox && portal in Handlers(b, lane)
  {
    || stage == Asking(b.outbox[portal], b.next)
    || (stage == Sending(b.next) && Handlers(b, lane)[portal] == Handler(Reply(b.outbox[portal]), Prepared))
  }

  function Started(b: Outbound.World, lane: Lane, portal: nat, stage: Stage): Outbound.World
    requires portal in b.outbox && portal in Handlers(b, lane)
  {
    Apply(Moved(b, lane, portal, Some(stage)), portal, Start(b.outbox[portal].request))
  }

  lemma StartEffect(b: Outbound.World, lane: Lane, portal: nat, stage: Stage)
    requires Outbound.Inv(b) && portal in b.outbox && portal in Handlers(b, lane) && Starts(b, lane, portal, stage)
    ensures var request := b.outbox[portal].request; var c := Started(b, lane, portal, stage);
      && c == Moved(b, lane, portal, Some(stage)).(
                adapter := b.adapter.(procs := b.adapter.procs[b.next := Process(request, Opening)]), next := b.next + 1)
      && b.next !in b.adapter.procs && request.transaction.portal == portal && Framed(b, c, portal)
  {
    hide Journal.Inv;
  }

  lemma StartStage(b: Outbound.World, lane: Lane, portal: nat, stage: Stage)
    requires Outbound.Inv(b) && portal in b.outbox && portal in Handlers(b, lane) && Starts(b, lane, portal, stage)
    ensures StageOk(Started(b, lane, portal, stage), portal, Handler(Handlers(b, lane)[portal].task, stage))
  {
    hide Journal.Inv, Started;
    StageHolds(b, lane, portal);
    StartEffect(b, lane, portal, stage);
    EntryIsHeld(b, portal);
  }

  lemma StartCase(b: Outbound.World, lane: Lane, portal: nat, stage: Stage)
    requires Outbound.Inv(b) && portal in b.outbox && portal in Handlers(b, lane) && Starts(b, lane, portal, stage)
    ensures Outbound.Inv(Started(b, lane, portal, stage))
  {
    hide Journal.Inv, StageOk, Framed, Journal.Next, Starts;
    var request := b.outbox[portal].request;
    var c := Started(b, lane, portal, stage);
    JournalSafety.NextKeepsInv(b.adapter, Spawn(b.next, request));
    StartEffect(b, lane, portal, stage);
    StartStage(b, lane, portal, stage);
    forall s: Transaction ensures Pending(c, s) || HasRow(c.rows, s) || Quiet(c.adapter, s) {
      assert Pending(b, s) || HasRow(b.rows, s) || Quiet(b.adapter, s);
    }
    forall key | key in c.rows ensures RowOk(c, key) { assert RowOk(b, key); }
    OtherStages(b, c, lane, portal, Some(stage));
  }

  lemma ReapEffect(a: Journal.World, pid: nat)
    requires pid in a.procs && a.procs[pid].phase.Done?
    ensures Journal.Next(a, Act(pid, Die)) == a.(procs := a.procs - {pid})
  {
  }

  lemma ReapFramed(b: Outbound.World, c: Outbound.World, portal: nat, pid: nat)
    requires c == b.(adapter := b.adapter.(procs := b.adapter.procs - {pid}), handlers := c.handlers, direct := c.direct)
    ensures Framed(b, c, portal)
  {
  }

  lemma ReapCase(b: Outbound.World, lane: Lane, portal: nat, stage: Option<Stage>, pid: nat)
    requires Outbound.Inv(b) && portal in Handlers(b, lane) && pid in b.adapter.procs && b.adapter.procs[pid].phase.Done?
    requires stage.Some? ==>
      StageOk(b.(adapter := b.adapter.(procs := b.adapter.procs - {pid})), portal, Handler(Handlers(b, lane)[portal].task, stage.value))
    ensures Outbound.Inv(Apply(Moved(b, lane, portal, stage), portal, Reap(pid)))
  {
    hide Journal.Inv, StageOk, Framed;
    var c := Apply(Moved(b, lane, portal, stage), portal, Reap(pid));
    JournalSafety.NextKeepsInv(b.adapter, Act(pid, Die));
    ReapEffect(b.adapter, pid);
    var reaped := b.(adapter := b.adapter.(procs := b.adapter.procs - {pid}));
    assert c == Moved(reaped, lane, portal, stage);
    ReapFramed(b, c, portal, pid);
    StagesSee(reaped, c);
    forall s: Transaction ensures Pending(c, s) || HasRow(c.rows, s) || Quiet(c.adapter, s) {
      assert Pending(b, s) || HasRow(b.rows, s) || Quiet(b.adapter, s);
    }
    forall key | key in c.rows ensures RowOk(c, key) { assert RowOk(b, key); }
    OtherStages(b, c, lane, portal, stage);
  }

  // ---------------------------------------------------------------- the invariant is inductive

  /** A step of a handler, in the queue or outside it. */
  function Stepped(b: Outbound.World, lane: Lane, portal: nat, ok: bool): Outbound.World {
    Outbound.Next(b, if lane.Queued? then Queue(portal, ok) else Direct(portal, ok))
  }

  lemma StepEffect(b: Outbound.World, lane: Lane, portal: nat, ok: bool)
    requires portal in Handlers(b, lane)
    ensures var c := Stepped(b, lane, portal, ok);
      match HandlerStep(b, portal, Handlers(b, lane)[portal], ok)
      case None => c == b
      case Some(Step(stage, change)) => c == Apply(Moved(b, lane, portal, stage), portal, change)
  {
  }

  lemma StageHolds(b: Outbound.World, lane: Lane, portal: nat)
    requires Outbound.Inv(b) && portal in Handlers(b, lane)
    ensures StageOk(b, portal, Handlers(b, lane)[portal])
    ensures Handlers(b, lane)[portal].task.Reply? ==> lane.Queued? && portal !in Handlers(b, Other(lane))
  {
  }

  lemma CheckKeepsInv(b: Outbound.World, lane: Lane, portal: nat, ok: bool)
    requires Outbound.Inv(b) && portal in Handlers(b, lane) && Handlers(b, lane)[portal].stage.Check?
    ensures Outbound.Inv(Stepped(b, lane, portal, ok))
  {
    StageHolds(b, lane, portal);
    StepEffect(b, lane, portal, ok);
    if portal in b.outbox { EntryIsHeld(b, portal); }
    hide Outbound.Inv, Stepped, Apply, Moved;
    if !ok {
      KeepCase(b, lane, portal, None);
    } else if portal !in b.outbox {
      KeepCase(b, lane, portal, Some(Running));
    } else if HasRow(b.rows, b.outbox[portal].request.transaction) {
      KeepCase(b, lane, portal, Some(Settling(b.outbox[portal])));
    } else {
      StartCase(b, lane, portal, Asking(b.outbox[portal], b.next));
    }
  }

  lemma EntryIsHeld(b: Outbound.World, portal: nat)
    requires Outbound.Inv(b) && portal in b.outbox
    ensures Held(b, portal, b.outbox[portal])
  {
  }

  lemma AskingKeepsInv(b: Outbound.World, lane: Lane, portal: nat, ok: bool)
    requires Outbound.Inv(b) && portal in Handlers(b, lane) && Handlers(b, lane)[portal].stage.Asking?
    ensures Outbound.Inv(Stepped(b, lane, portal, ok))
  {
    hide Stepped, Apply, Moved, Journal.Next;
    StageHolds(b, lane, portal);
    StepEffect(b, lane, portal, ok);
    var stage := Handlers(b, lane)[portal].stage;
    if !ok {
      KeepCase(b, lane, portal, None);
    } else if ReplyOf(b.adapter, stage.pid).Some? {
      var reply := ReplyOf(b.adapter, stage.pid).value;
      assert ProcessOk(b.adapter, stage.pid);
      ReapCase(b, lane, portal, if reply.Sent? then Some(Keeping(stage.out, reply.message)) else None, stage.pid);
    }
  }

  lemma KeepingKeepsInv(b: Outbound.World, lane: Lane, portal: nat, ok: bool)
    requires Outbound.Inv(b) && portal in Handlers(b, lane)
    requires Handlers(b, lane)[portal].stage.Keeping? || Handlers(b, lane)[portal].stage.Settling?
    ensures Outbound.Inv(Stepped(b, lane, portal, ok))
  {
    hide Outbound.Inv, Stepped, Apply, Moved;
    StageHolds(b, lane, portal);
    StepEffect(b, lane, portal, ok);
    match Handlers(b, lane)[portal].stage
    case Keeping(out, message) =>
      if !ok || (portal, message) in b.rows {
        KeepCase(b, lane, portal, None);
      } else {
        InsertCase(b, lane, portal, Settling(out), out, message);
      }
    case Settling(out) =>
      if ok { DeleteCase(b, lane, portal, Some(Running)); } else { KeepCase(b, lane, portal, None); }
    case _ =>
  }

  lemma SendingKeepsInv(b: Outbound.World, portal: nat, ok: bool)
    requires Outbound.Inv(b) && portal in b.handlers && b.handlers[portal].task.Reply? && b.handlers[portal].stage.Sending?
    ensures Outbound.Inv(Stepped(b, Queued, portal, ok))
  {
    hide Stepped, Apply, Moved, Journal.Next;
    StageHolds(b, Queued, portal);
    StepEffect(b, Queued, portal, ok);
    var Handler(task, stage) := b.handlers[portal];
    var pid := stage.pid;
    if !ok {
      KeepCase(b, Queued, portal, None);
    } else if ReplyOf(b.adapter, pid).Some? {
      var reply := ReplyOf(b.adapter, pid).value;
      var t := task.entry.request.transaction;
      assert ProcessOk(b.adapter, pid);
      match reply
      case Sent(message) => ReapCase(b, Queued, portal, Some(Storing(message)), pid);
      case Unsent =>
        if SoleServer(b.adapter, t, pid) {
          assert Quiet(b.adapter.(procs := b.adapter.procs - {pid}), t);
        }
        ReapCase(b, Queued, portal, Some(Rejecting), pid);
      case Uncertain => ReapCase(b, Queued, portal, None, pid);
    }
  }

  lemma PreparedKeepsInv(b: Outbound.World, portal: nat, ok: bool)
    requires Outbound.Inv(b) && portal in b.handlers && b.handlers[portal].task.Reply?
    requires b.handlers[portal].stage.Prepared? || b.handlers[portal].stage.Rejecting?
    ensures Outbound.Inv(Stepped(b, Queued, portal, ok))
  {
    hide Outbound.Inv, Stepped, Apply, Moved;
    StageHolds(b, Queued, portal);
    StepEffect(b, Queued, portal, ok);
    var Handler(task, stage) := b.handlers[portal];
    if stage.Rejecting? {
      if ok { DeleteCase(b, Queued, portal, None); } else { KeepCase(b, Queued, portal, None); }
    } else if ok {
      StartCase(b, Queued, portal, Sending(b.next));
    } else {
      KeepCase(b, Queued, portal, Some(Rejecting));
    }
  }

  lemma StoringKeepsInv(b: Outbound.World, portal: nat, ok: bool)
    requires Outbound.Inv(b) && portal in b.handlers && b.handlers[portal].task.Reply?
    requires b.handlers[portal].stage.Storing? || b.handlers[portal].stage.Clearing?
    ensures Outbound.Inv(Stepped(b, Queued, portal, ok))
  {
    hide Outbound.Inv, Stepped, Apply, Moved;
    StageHolds(b, Queued, portal);
    StepEffect(b, Queued, portal, ok);
    var Handler(task, stage) := b.handlers[portal];
    match stage
    case Storing(message) =>
      if !ok || (portal, message) in b.rows {
        KeepCase(b, Queued, portal, None);
      } else {
        InsertCase(b, Queued, portal, Clearing, task.entry, message);
      }
    case Clearing =>
      if ok { DeleteCase(b, Queued, portal, None); } else { KeepCase(b, Queued, portal, None); }
    case _ =>
  }

  lemma RunningKeepsInv(b: Outbound.World, lane: Lane, portal: nat, ok: bool)
    requires Outbound.Inv(b) && portal in Handlers(b, lane) && Handlers(b, lane)[portal].stage.Running?
    ensures Outbound.Inv(Stepped(b, lane, portal, ok))
  {
    StageHolds(b, lane, portal);
    BesideSettles(b, lane, portal);
    StepEffect(b, lane, portal, ok);
    hide Outbound.Inv, Stepped, Apply, Moved;
    match Handlers(b, lane)[portal].task
    case Settle => KeepCase(b, lane, portal, None);
    case Reply(entry) => if ok { StoreCase(b, portal, entry); } else { KeepCase(b, lane, portal, None); }
    case Show(item) =>
      if (portal, item.id) in b.rows { KeepCase(b, lane, portal, None); } else { DisplayCase(b, portal, item, ok); }
  }

  lemma BesideSettles(b: Outbound.World, lane: Lane, portal: nat)
    requires Outbound.Inv(b) && portal in Handlers(b, lane)
    ensures lane.Beside? ==> Handlers(b, lane)[portal].task.Settle?
  {
  }

  lemma StepKeepsInv(b: Outbound.World, lane: Lane, portal: nat, ok: bool)
    requires Outbound.Inv(b) && portal in Handlers(b, lane)
    ensures Outbound.Inv(Stepped(b, lane, portal, ok))
  {
    hide Outbound.Inv, Stepped;
    StageHolds(b, lane, portal);
    var Handler(task, stage) := Handlers(b, lane)[portal];
    match stage
    case Check => CheckKeepsInv(b, lane, portal, ok);
    case Asking(_, _) => AskingKeepsInv(b, lane, portal, ok);
    case Keeping(_, _) => KeepingKeepsInv(b, lane, portal, ok);
    case Settling(_) => KeepingKeepsInv(b, lane, portal, ok);
    case Running => RunningKeepsInv(b, lane, portal, ok);
    case _ =>
      if stage.Sending? {
        SendingKeepsInv(b, portal, ok);
      } else if stage.Storing? || stage.Clearing? {
        StoringKeepsInv(b, portal, ok);
      } else {
        PreparedKeepsInv(b, portal, ok);
      }
  }

  lemma BeginKeepsInv(b: Outbound.World, action: Outbound.Action)
    requires Outbound.Inv(b) && (action.Begin? || action.BeginDirect? || action.Restart?) && !Overlaps(b, action)
    ensures Outbound.Inv(Outbound.Next(b, action))
  {
    hide Journal.Inv;
    var c := Outbound.Next(b, action);
    StagesSee(b, c);
    StagesBegin(b, action);
    StoresKept(b, c);
  }

  lemma StagesBegin(b: Outbound.World, action: Outbound.Action)
    requires Stages(b) && (action.Begin? || action.BeginDirect? || action.Restart?) && !Overlaps(b, action)
    ensures Stages(Outbound.Next(b, action))
  {
    hide HasRow, IsAccepted, Quiet, SoleServer;
    var c := Outbound.Next(b, action);
    StagesSee(b, c);
    forall p | p in c.handlers ensures StageOk(c, p, c.handlers[p]) {
      if p in b.handlers && c.handlers[p] == b.handlers[p] { assert StageOk(b, p, b.handlers[p]); }
    }
  }

  lemma NextKeepsInv(b: Outbound.World, action: Outbound.Action)
    requires Outbound.Inv(b) && !Overlaps(b, action)
    ensures Outbound.Inv(Outbound.Next(b, action))
  {
    hide Outbound.Inv;
    match action
    case Adapter(step) => AdapterKeepsInv(b, step);
    case Queue(portal, ok) => if portal in b.handlers { StepKeepsInv(b, Queued, portal, ok); }
    case Direct(portal, ok) => if portal in b.direct { StepKeepsInv(b, Beside, portal, ok); }
    case _ => BeginKeepsInv(b, action);
  }

  // ---------------------------------------------------------------- runs

  predicate Fresh(b: Outbound.World) {
    && JournalSafety.Fresh(b.adapter) && b.outbox == map[] && b.rows == map[]
    && b.handlers == map[] && b.direct == map[] && b.shown == []
  }

  lemma FreshInv(b: Outbound.World)
    requires Fresh(b)
    ensures Outbound.Inv(b)
  {
    JournalSafety.FreshInv(b.adapter);
  }

  lemma {:induction false} RunKeepsInv(b: Outbound.World, actions: seq<Outbound.Action>)
    requires Outbound.Inv(b) && Apart(b, actions)
    ensures Outbound.Inv(Outbound.Run(b, actions))
  {
    if actions != [] {
      RunKeepsInv(b, actions[..|actions| - 1]);
      NextKeepsInv(Outbound.Run(b, actions[..|actions| - 1]), actions[|actions| - 1]);
    }
  }

  /** Without recovery outside the queue nothing overlaps. */
  lemma {:induction false} SerializedIsApart(b: Outbound.World, actions: seq<Outbound.Action>)
    requires b.direct == map[] && Serialized(actions)
    ensures Apart(b, actions) && Outbound.Run(b, actions).direct == map[]
  {
    if actions != [] {
      var init := actions[..|actions| - 1];
      SerializedIsApart(b, init);
      StaysQueued(Outbound.Run(b, init), actions[|actions| - 1]);
    }
  }

  lemma StaysQueued(b: Outbound.World, action: Outbound.Action)
    requires b.direct == map[] && !action.BeginDirect?
    ensures Outbound.Next(b, action).direct == map[]
  {
    if action.Queue? && action.portal in b.handlers { StepEffect(b, Queued, action.portal, action.ok); }
  }

  lemma AdapterInvAlways(b: Outbound.World, action: Outbound.Action)
    requires Journal.Inv(b.adapter)
    ensures Journal.Inv(Outbound.Next(b, action).adapter)
  {
    match action
    case Adapter(step) => JournalSafety.NextKeepsInv(b.adapter, step);
    case Queue(portal, ok) =>
      if portal in b.handlers && HandlerStep(b, portal, b.handlers[portal], ok).Some? {
        var Step(stage, change) := HandlerStep(b, portal, b.handlers[portal], ok).value;
        ChangeKeepsAdapterInv(Moved(b, Queued, portal, stage), portal, change);
      }
    case Direct(portal, ok) =>
      if portal in b.direct && HandlerStep(b, portal, b.direct[portal], ok).Some? {
        var Step(stage, change) := HandlerStep(b, portal, b.direct[portal], ok).value;
        ChangeKeepsAdapterInv(Moved(b, Beside, portal, stage), portal, change);
      }
    case _ =>
  }

  lemma ChangeKeepsAdapterInv(b: Outbound.World, portal: nat, change: Change)
    requires Journal.Inv(b.adapter)
    ensures Journal.Inv(Apply(b, portal, change).adapter)
  {
    match change
    case Start(request) =>
      assert Apply(b, portal, change).adapter == Journal.Next(b.adapter, Spawn(b.next, request));
      JournalSafety.NextKeepsInv(b.adapter, Spawn(b.next, request));
    case Reap(pid) =>
      assert Apply(b, portal, change).adapter == Journal.Next(b.adapter, Act(pid, Die));
      JournalSafety.NextKeepsInv(b.adapter, Act(pid, Die));
    case _ =>
      assert Apply(b, portal, change).adapter == b.adapter;
  }

  lemma {:induction false} AdapterInvOverRuns(b: Outbound.World, actions: seq<Outbound.Action>)
    requires Journal.Inv(b.adapter)
    ensures Journal.Inv(Outbound.Run(b, actions).adapter)
  {
    if actions != [] {
      AdapterInvOverRuns(b, actions[..|actions| - 1]);
      AdapterInvAlways(Outbound.Run(b, actions[..|actions| - 1]), actions[|actions| - 1]);
    }
  }

  /**
   End to end: over every run of the bridge, competing adapter processes and the owner, with
   restarts and process deaths anywhere and any number of retries, a Matrix event gains at most
   one rollout item. This does not even need recovery to be serialized.
   */
  lemma AtMostOncePerEvent(b: Outbound.World, actions: seq<Outbound.Action>, t: Transaction)
    requires Fresh(b)
    ensures Count(Log(Outbound.Run(b, actions).adapter, t.portal), t) <= 1
  {
    JournalSafety.FreshInv(b.adapter);
    AdapterInvOverRuns(b, actions);
    assert AtMostOneCall(Outbound.Run(b, actions).adapter, t);
  }

  /**
   No echo: in every run in which no recovery outside the queue overlaps a reply's handler in its
   own portal, no item that came from a Matrix event is ever sent to Matrix as a new message.
   */
  lemma NoEcho(b: Outbound.World, actions: seq<Outbound.Action>)
    requires Fresh(b) && Apart(b, actions)
    ensures forall s :: s in Outbound.Run(b, actions).shown ==> s.1.client.None?
  {
    FreshInv(b);
    RunKeepsInv(b, actions);
  }

  /** Every rollout item that came from a Matrix event is still in its outbox or has its row. */
  lemma ItemsAreAccountedFor(b: Outbound.World, actions: seq<Outbound.Action>, portal: nat, item: Item)
    requires Fresh(b) && Apart(b, actions)
    requires item in Log(Outbound.Run(b, actions).adapter, portal) && item.client.Some?
    ensures var c := Outbound.Run(b, actions);
      || (portal in c.outbox && c.outbox[portal].request.transaction == item.client.value)
      || ((portal, item.id) in c.rows && c.rows[(portal, item.id)] == FromMatrix(item.client.value, item.text))
  {
    FreshInv(b);
    RunKeepsInv(b, actions);
    var c := Outbound.Run(b, actions);
    var t := item.client.value;
    assert LogOk(Log(c.adapter, portal), portal);
    if !Pending(c, t) { ItemHasRow(c, portal, item); }
  }
}
