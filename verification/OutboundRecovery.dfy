/**
 What an unresolved outbox entry does to its room, how one recovery settles it, and what goes
 wrong when recovery runs outside the portal queue.
 */
module OutboundRecovery {
  import opened Journal
  import opened Outbound
  import opened OutboundSafety

  /** The original events shown in one room. */
  function ShownIn(shown: seq<(nat, Item)>, portal: nat): seq<Item> {
    if shown == [] then []
    else ShownIn(shown[..|shown| - 1], portal)
         + (if shown[|shown| - 1].0 == portal then [shown[|shown| - 1].1] else [])
  }

  /** The room is paused on this entry: it is in the outbox and its event has no row. */
  predicate Paused(b: Outbound.World, portal: nat, out: Entry) {
    portal in b.outbox && b.outbox[portal] == out && !HasRow(b.rows, out.request.transaction)
  }

  /** The processes working in one room all carry this request, apart from those named. */
  predicate OnlyServes(b: Outbound.World, portal: nat, request: Request, before: map<nat, Process>) {
    forall pid :: pid in b.adapter.procs && b.adapter.procs[pid].request.transaction.portal == portal ==>
      b.adapter.procs[pid].request == request || (pid in before && before[pid].request == b.adapter.procs[pid].request)
  }

  lemma ShownPush(shown: seq<(nat, Item)>, x: (nat, Item), portal: nat)
    ensures ShownIn(shown + [x], portal) == ShownIn(shown, portal) + (if x.0 == portal then [x.1] else [])
  {
    assert (shown + [x])[..|shown|] == shown;
  }

  /**
   One step of a run cannot replace a paused entry, show a source message in its room or submit
   another request there; it can only leave it alone, give its event a row, or delete it once the
   backend has said that nothing was submitted. Recovery outside the queue may be under way.
   */
  lemma PausedStep(b: Outbound.World, action: Outbound.Action, portal: nat, out: Entry)
    requires Outbound.Inv(b) && !Overlaps(b, action) && Paused(b, portal, out)
    ensures StillPaused(b, Outbound.Next(b, action), portal, out)
  {
    match action
    case Adapter(step) => if !step.Spawn? { AdapterFrame(b.adapter, step); }
    case Queue(p, ok) => if p in b.handlers { PausedHandler(b, Queued, p, ok, portal, out); }
    case Direct(p, ok) => if p in b.direct { PausedHandler(b, Beside, p, ok, portal, out); }
    case _ =>
  }

  ghost predicate StillPaused(b: Outbound.World, c: Outbound.World, portal: nat, out: Entry) {
    && (portal in c.outbox ==> c.outbox[portal] == out)
    && (portal !in c.outbox ==> Quiet(c.adapter, out.request.transaction))
    && ShownIn(c.shown, portal) == ShownIn(b.shown, portal)
    && OnlyServes(c, portal, out.request, b.adapter.procs)
  }

  lemma PausedHandler(b: Outbound.World, lane: Lane, p: nat, ok: bool, portal: nat, out: Entry)
    requires Outbound.Inv(b) && p in Handlers(b, lane) && Paused(b, portal, out)
    ensures StillPaused(b, Stepped(b, lane, p, ok), portal, out)
  {
    hide Journal.Inv, Stepped, StillPaused, Apply, Moved;
    StageHolds(b, lane, p);
    StepEffect(b, lane, p, ok);
    EntryIsHeld(b, portal);
    if p in b.outbox { EntryIsHeld(b, p); }
    var response := HandlerStep(b, p, Handlers(b, lane)[p], ok);
    if response.Some? {
      ChangeKinds(b, p, Handlers(b, lane)[p], ok);
      PausedChange(b, lane, p, response.value.stage, response.value.change, portal, out);
    } else {
      PausedSame(b, portal, out);
    }
  }

  lemma PausedSame(b: Outbound.World, portal: nat, out: Entry)
    requires Paused(b, portal, out)
    ensures StillPaused(b, b, portal, out)
  {
  }

  /** When a handler may perform each store operation. */
  predicate Permitted(b: Outbound.World, p: nat, change: Change) {
    match change
    case Store(_) => p !in b.outbox
    case Display(_, _) => p !in b.outbox
    case Delete =>
      p in b.outbox ==> HasRow(b.rows, b.outbox[p].request.transaction) || Quiet(b.adapter, b.outbox[p].request.transaction)
    case Start(request) => p in b.outbox && request == b.outbox[p].request
    case Reap(pid) => pid in b.adapter.procs && b.adapter.procs[pid].phase.Done?
    case _ => true
  }

  lemma ChangeKinds(b: Outbound.World, p: nat, handler: Handler, ok: bool)
    requires StageOk(b, p, handler) && HandlerStep(b, p, handler, ok).Some?
    ensures Permitted(b, p, HandlerStep(b, p, handler, ok).value.change)
  {
    var Handler(task, stage) := handler;
    match stage
    case Rejecting => assert b.outbox[p] == task.entry && SubmitOk(b, task.entry.request, stage);
    case Clearing => assert b.outbox[p] == task.entry && SubmitOk(b, task.entry.request, stage);
    case _ =>
  }

  lemma PausedChange(b: Outbound.World, lane: Lane, p: nat, stage: Option<Stage>, change: Change, portal: nat, out: Entry)
    requires Paused(b, portal, out) && p in Handlers(b, lane) && Permitted(b, p, change)
    requires out.request.transaction.portal == portal
    requires p in b.outbox ==> b.outbox[p].request.transaction.portal == p
    ensures StillPaused(b, Apply(Moved(b, lane, p, stage), p, change), portal, out)
  {
    match change
    case Display(item, _) => ShownPush(b.shown, (p, item), portal);
    case Reap(pid) => ReapEffect(b.adapter, pid);
    case _ =>
  }

  /**
   As long as a room stays paused, the entry is the one it started with, no source message is
   mirrored into the room, and only the entry's own request is ever submitted there.
   */
  lemma {:induction false} PausedRoom(b: Outbound.World, actions: seq<Outbound.Action>, portal: nat, out: Entry)
    requires Outbound.Inv(b) && Apart(b, actions) && Paused(b, portal, out)
    requires forall k :: 0 <= k <= |actions| ==>
      var c := Outbound.Run(b, actions[..k]); portal in c.outbox && !HasRow(c.rows, out.request.transaction)
    ensures var c := Outbound.Run(b, actions);
      && portal in c.outbox && c.outbox[portal] == out
      && ShownIn(c.shown, portal) == ShownIn(b.shown, portal)
      && OnlyServes(c, portal, out.request, b.adapter.procs)
  {
    assert actions[..|actions|] == actions;
    if actions != [] {
      var init := actions[..|actions| - 1];
      forall k | 0 <= k <= |init|
        ensures var c := Outbound.Run(b, init[..k]); portal in c.outbox && !HasRow(c.rows, out.request.transaction)
      {
        assert init[..k] == actions[..k];
      }
      PausedRoom(b, init, portal, out);
      RunKeepsInv(b, init);
      PausedStep(Outbound.Run(b, init), actions[|actions| - 1], portal, out);
    }
  }

  // ---------------------------------------------------------------- one recovery settles the entry

  function After(b: Outbound.World, portal: nat, steps: nat): Outbound.World {
    if steps == 0 then b else Outbound.Next(After(b, portal, steps - 1), Queue(portal, true))
  }

  /** Recovery of an entry without a row submits the original request, unchanged. */
  lemma RecoveryAsksTheOriginal(b: Outbound.World, portal: nat, out: Entry)
    requires Outbound.Inv(b) && Paused(b, portal, out) && portal !in b.handlers
    ensures var c := Outbound.Next(Outbound.Next(b, Begin(portal, Settle)), Queue(portal, true));
      && portal in c.handlers && c.handlers[portal] == Handler(Settle, Asking(out, b.next))
      && b.next in c.adapter.procs && c.adapter.procs[b.next] == Process(out.request, Opening)
  {
    var begun := Outbound.Next(b, Begin(portal, Settle));
    assert begun.handlers[portal] == Handler(Settle, Check) && begun.outbox == b.outbox && begun.rows == b.rows;
    assert HandlerStep(begun, portal, begun.handlers[portal], true) == Some(Step(Some(Asking(out, b.next)), Start(out.request)));
  }

  /** If the backend then answers accepted, recovery stores the row and empties the outbox. */
  lemma RecoverySettles(b: Outbound.World, portal: nat, task: Task, out: Entry, pid: nat, message: nat)
    requires Outbound.Inv(b) && Paused(b, portal, out)
    requires portal in b.handlers && b.handlers[portal] == Handler(task, Asking(out, pid))
    requires ReplyOf(b.adapter, pid) == Some(Sent(message))
    ensures var c := After(b, portal, 3);
      && portal !in c.outbox
      && (portal, message) in c.rows && c.rows[(portal, message)] == FromMatrix(out.request.transaction, out.request.text)
      && portal in c.handlers && c.handlers[portal] == Handler(task, Running)
  {
    assert StageOk(b, portal, b.handlers[portal]) && ProcessOk(b.adapter, pid);
    AcceptedKeyIsFree(b, portal, out, message);
    var one := Outbound.Next(b, Queue(portal, true));
    assert one.handlers[portal] == Handler(task, Keeping(out, message));
    assert one.rows == b.rows && one.outbox == b.outbox;
    KeptSettles(one, portal, task, out, message);
    assert After(b, portal, 1) == one by { assert After(b, portal, 0) == b; }
    assert After(b, portal, 2) == Outbound.Next(one, Queue(portal, true));
  }

  lemma KeptSettles(b: Outbound.World, portal: nat, task: Task, out: Entry, message: nat)
    requires portal in b.handlers && b.handlers[portal] == Handler(task, Keeping(out, message))
    requires (portal, message) !in b.rows
    ensures var c := Outbound.Next(Outbound.Next(b, Queue(portal, true)), Queue(portal, true));
      && portal !in c.outbox
      && (portal, message) in c.rows && c.rows[(portal, message)] == FromMatrix(out.request.transaction, out.request.text)
      && portal in c.handlers && c.handlers[portal] == Handler(task, Running)
  {
    var d := Outbound.Next(b, Queue(portal, true));
    assert d.handlers[portal] == Handler(task, Settling(out));
  }

  lemma AcceptedKeyIsFree(b: Outbound.World, portal: nat, out: Entry, message: nat)
    requires Outbound.Inv(b) && Paused(b, portal, out) && IsAccepted(b.adapter, out.request, message)
    ensures (portal, message) !in b.rows
  {
    var t := out.request.transaction;
    assert RecordOk(b.adapter, t) && LogOk(Log(b.adapter, portal), portal);
    var own := Item(message, Some(t), true, out.request.text);
    assert own in Log(b.adapter, portal);
    if (portal, message) in b.rows {
      var row := b.rows[(portal, message)];
      assert RowOk(b, (portal, message));
      if row.FromMatrix? {
        assert RecordOk(b.adapter, row.transaction);
        SameId(Log(b.adapter, portal), portal, own, Item(message, Some(row.transaction), true, row.text));
      } else {
        var x :| x in Log(b.adapter, portal) && x.id == message && x.client.None?;
        SameId(Log(b.adapter, portal), portal, own, x);
      }
    }
  }

  lemma SameId(items: seq<Item>, portal: nat, x: Item, y: Item)
    requires LogOk(items, portal) && x in items && y in items && x.id == y.id
    ensures x == y
  {
  }

  /**
   A crash after the row was stored but before the outbox was emptied is settled without
   asking the backend at all.
   */
  lemma RecoveryAfterRow(b: Outbound.World, portal: nat)
    requires Outbound.Inv(b) && portal in b.outbox && portal !in b.handlers
    requires HasRow(b.rows, b.outbox[portal].request.transaction)
    ensures var c := After(Outbound.Next(b, Begin(portal, Settle)), portal, 2);
      && portal !in c.outbox && c.rows == b.rows && c.adapter == b.adapter
  {
    var begun := Outbound.Next(b, Begin(portal, Settle));
    assert begun.handlers[portal] == Handler(Settle, Check) && begun.outbox == b.outbox && begun.rows == b.rows;
    FoundSettles(begun, portal);
  }

  lemma FoundSettles(b: Outbound.World, portal: nat)
    requires portal in b.handlers && b.handlers[portal] == Handler(Settle, Check) && portal in b.outbox
    requires HasRow(b.rows, b.outbox[portal].request.transaction)
    ensures var c := After(b, portal, 2); portal !in c.outbox && c.rows == b.rows && c.adapter == b.adapter
  {
    assert After(b, portal, 0) == b;
    var one := After(b, portal, 1);
    assert one.handlers[portal] == Handler(Settle, Settling(b.outbox[portal]));
  }

  /**
   The backend does answer accepted once the owner has appended the item: a new process that
   reads the rollout, alone with the task lock, reconciles the submitting record.
   */
  lemma BackendReconciles(w: Journal.World, pid: nat, message: nat) returns (v: Journal.World)
    requires Journal.Inv(w) && pid in w.procs && w.procs[pid].phase.Opening?
    requires var request := w.procs[pid].request;
      && Attempting(w, request)
      && Item(message, Some(request.transaction), true, request.text) in Log(w, request.transaction.portal)
      && request.transaction.portal !in w.locks
    ensures JournalSafety.Reach(w, v)
    ensures pid in v.procs && v.procs[pid] == Process(w.procs[pid].request, Done(Sent(message)))
  {
    var request := w.procs[pid].request;
    var t := request.transaction;
    var log := Log(w, t.portal);
    assert AtMostOneCall(w, t);
    OneMatch(log, Item(message, Some(t), true, request.text), request);
    assert Journal.Run(w, []) == w;
    v := JournalSafety.Advance(w, w, pid, Look(log), To(Waiting(log)).value);
    v := JournalSafety.Advance(w, v, pid, Go, To(Locked(log)).value);
    v := Reconcile(w, v, pid, log, message);
  }

  lemma Reconcile(w: Journal.World, u: Journal.World, pid: nat, log: seq<Item>, message: nat) returns (v: Journal.World)
    requires JournalSafety.Reach(w, u) && pid in u.procs && u.procs[pid].phase == Locked(log)
    requires var request := u.procs[pid].request;
      && Attempting(u, request)
      && Matches(log, request) == [Item(message, Some(request.transaction), true, request.text)]
    ensures JournalSafety.Reach(w, v)
    ensures pid in v.procs && v.procs[pid] == Process(u.procs[pid].request, Done(Sent(message)))
  {
    v := JournalSafety.Advance(w, u, pid, Go, To(Matched(message)).value);
    v := JournalSafety.Advance(w, v, pid, Go,
      Journal.Effect(Some(Done(Sent(message))), Some(Accepted(message)), Unchanged));
  }

  lemma {:induction false} OneMatch(items: seq<Item>, own: Item, request: Request)
    requires own in items && IsMatch(own, request) && Count(items, request.transaction) <= 1
    ensures Matches(items, request) == [own]
  {
    var last := |items| - 1;
    assert items == items[..last] + [items[last]];
    MatchesAppend(items[..last], [items[last]], request);
    assert [items[last]][1..] == [];
    if own in items[..last] {
      OneMatch(items[..last], own, request);
      JournalSafety.CountMember(items[..last], own, request.transaction);
    } else {
      JournalSafety.MatchesAre(items[..last], request);
      var rest := Matches(items[..last], request);
      if rest != [] {
        assert rest[0] in items[..last];
        JournalSafety.CountMember(items[..last], rest[0], request.transaction);
      }
    }
  }

  lemma {:induction false} MatchesAppend(a: seq<Item>, b: seq<Item>, request: Request)
    ensures Matches(a + b, request) == Matches(a, request) + Matches(b, request)
  {
    if a == [] {
      assert a + b == b;
    } else {
      assert (a + b)[1..] == a[1..] + b;
      MatchesAppend(a[1..], b, request);
    }
  }
}
