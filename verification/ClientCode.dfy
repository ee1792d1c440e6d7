/**
 The bridge's handlers as the program runs them (pkg/connector/outbound.go, HandleMatrixMessage,
 recoverOutbound, finishRecovery and the pre-handler of source messages), one store operation at
 a time inside the portal queue. Between any two operations the other portals' handlers, recovery
 outside the queue, the adapter processes and the task owner may do anything the machine of
 Outbound allows; only recovery outside the queue stays apart from replies of its own portal.
 */
module ClientCode {
  import opened Journal
  import opened Outbound
  import OutboundSafety
  import OutboundRecovery

  ghost predicate Led(b: Outbound.World, c: Outbound.World) {
    exists actions: seq<Outbound.Action> :: Apart(b, actions) && Outbound.Run(b, actions) == c
  }

  lemma LedSelf(b: Outbound.World)
    ensures Led(b, b)
  {
    assert Outbound.Run(b, []) == b && Apart(b, []);
  }

  lemma LedStep(b: Outbound.World, c: Outbound.World, action: Outbound.Action)
    requires Led(b, c) && !Overlaps(c, action)
    ensures Led(b, Outbound.Next(c, action))
  {
    var actions: seq<Outbound.Action> :| Apart(b, actions) && Outbound.Run(b, actions) == c;
    assert (actions + [action])[..|actions|] == actions;
    assert Apart(b, actions + [action]);
    assert Outbound.Run(b, actions + [action]) == Outbound.Next(c, action);
  }

  lemma {:induction false} RunsJoin(b: Outbound.World, first: seq<Outbound.Action>, rest: seq<Outbound.Action>)
    requires Apart(b, first) && Apart(Outbound.Run(b, first), rest)
    ensures Apart(b, first + rest) && Outbound.Run(b, first + rest) == Outbound.Run(Outbound.Run(b, first), rest)
  {
    hide Outbound.Next;
    if rest == [] {
      assert first + rest == first;
    } else {
      var last := |rest| - 1;
      assert (first + rest)[..|first + rest| - 1] == first + rest[..last];
      RunsJoin(b, first, rest[..last]);
    }
  }

  lemma LedOn(b: Outbound.World, c: Outbound.World, d: Outbound.World)
    requires Led(b, c) && Led(c, d)
    ensures Led(b, d)
  {
    hide Outbound.Run, Apart;
    var first: seq<Outbound.Action> :| Apart(b, first) && Outbound.Run(b, first) == c;
    var rest: seq<Outbound.Action> :| Apart(c, rest) && Outbound.Run(c, rest) == d;
    RunsJoin(b, first, rest);
  }

  /** What others may do: anything but a step of the portal's own handler, or an overlap with its reply. */
  predicate ByOthers(b: Outbound.World, action: Outbound.Action, portal: nat) {
    !action.Restart? && !Overlaps(b, action) && (action.Queue? ==> action.portal != portal)
  }

  /** A recovery of the portal's own outside the queue begins, or takes a step. */
  predicate Beside(b: Outbound.World, action: Outbound.Action, portal: nat) {
    (action.Direct? && action.portal == portal && portal in b.direct) || (action.BeginDirect? && action.portal == portal)
  }

  /** Whatever others do, the portal's handler stands where it stood. */
  lemma HandlerKept(b: Outbound.World, action: Outbound.Action, portal: nat)
    requires portal in b.handlers && ByOthers(b, action, portal)
    ensures var c := Outbound.Next(b, action); portal in c.handlers && c.handlers[portal] == b.handlers[portal]
  {
    hide Journal.Next, HandlerStep;
    match action
    case Queue(p, ok) => if p in b.handlers { OutboundSafety.StepEffect(b, OutboundSafety.Queued, p, ok); }
    case Direct(p, ok) => if p in b.direct { OutboundSafety.StepEffect(b, OutboundSafety.Beside, p, ok); }
    case _ =>
  }

  /** Beside a reply there is no recovery outside the queue. */
  lemma NoneBesideReplies(b: Outbound.World, action: Outbound.Action, portal: nat)
    requires Outbound.Inv(b) && Replying(b, portal) && ByOthers(b, action, portal)
    ensures !Beside(b, action, portal)
  {
  }

  /** The portal's outbox and rows are as they were. */
  predicate SamePortal(b: Outbound.World, c: Outbound.World, portal: nat) {
    && (portal in b.outbox <==> portal in c.outbox) && (portal in b.outbox ==> c.outbox[portal] == b.outbox[portal])
    && (forall key :: key in b.rows && key.0 == portal ==> key in c.rows && c.rows[key] == b.rows[key])
    && (forall key :: key in c.rows && key.0 == portal ==> key in b.rows)
  }

  lemma ApplyElsewhere(b: Outbound.World, p: nat, change: Change, portal: nat)
    requires p != portal
    ensures SamePortal(b, Apply(b, p, change), portal)
    ensures Apply(b, p, change).handlers == b.handlers && Apply(b, p, change).direct == b.direct
  {
    hide Journal.Next;
  }

  /** A step of another portal's handler leaves this portal alone. */
  lemma HandlerElsewhere(b: Outbound.World, lane: OutboundSafety.Lane, p: nat, ok: bool, portal: nat)
    requires portal in b.handlers && p in OutboundSafety.Handlers(b, lane) && p != portal
    ensures LeftAlone(b, OutboundSafety.Stepped(b, lane, p, ok), portal)
  {
    hide OutboundSafety.Stepped, HandlerStep, Apply;
    OutboundSafety.StepEffect(b, lane, p, ok);
    var response := HandlerStep(b, p, OutboundSafety.Handlers(b, lane)[p], ok);
    if response.Some? {
      ApplyElsewhere(OutboundSafety.Moved(b, lane, p, response.value.stage), p, response.value.change, portal);
    }
  }

  /** The portal's stores and its handler are as they were. */
  predicate LeftAlone(b: Outbound.World, c: Outbound.World, portal: nat) {
    && SamePortal(b, c, portal)
    && portal in b.handlers && portal in c.handlers && c.handlers[portal] == b.handlers[portal]
    && (portal in c.direct ==> portal in b.direct)
  }

  lemma ElsewhereKeepsPortal(b: Outbound.World, action: Outbound.Action, portal: nat)
    requires portal in b.handlers && ByOthers(b, action, portal) && !Beside(b, action, portal)
    ensures LeftAlone(b, Outbound.Next(b, action), portal)
  {
    hide Journal.Next;
    match action
    case Queue(p, ok) => if p in b.handlers { HandlerElsewhere(b, OutboundSafety.Queued, p, ok, portal); }
    case Direct(p, ok) => if p in b.direct { HandlerElsewhere(b, OutboundSafety.Beside, p, ok, portal); }
    case _ =>
  }

  /** The portal's entry is as it was, or there is none as before. */
  predicate SameEntry(b: Outbound.World, c: Outbound.World, portal: nat) {
    (portal in b.outbox <==> portal in c.outbox) && (portal in b.outbox ==> c.outbox[portal] == b.outbox[portal])
  }

  lemma EntryIsSame(b: Outbound.World, c: Outbound.World, portal: nat)
    requires SamePortal(b, c, portal)
    ensures SameEntry(b, c, portal)
  {
  }

  lemma PortalIsSame(b: Outbound.World, c: Outbound.World, portal: nat)
    requires b.outbox == c.outbox && b.rows == c.rows
    ensures SamePortal(b, c, portal)
  {
  }

  lemma SameOn(a: Outbound.World, b: Outbound.World, c: Outbound.World, portal: nat)
    requires SamePortal(a, b, portal) && SamePortal(b, c, portal)
    ensures SamePortal(a, c, portal)
  {
  }

  /** In this portal these rows were added, and nothing else happened to its rows. */
  ghost predicate RowsGained(b: map<(nat, nat), Row>, c: map<(nat, nat), Row>, portal: nat, gained: map<(nat, nat), Row>) {
    forall key: (nat, nat) :: key.0 == portal ==>
      && (key in c <==> key in b || key in gained)
      && (key in gained ==> c[key] == gained[key])
      && (key in b && key !in gained ==> c[key] == b[key])
  }

  lemma NoneGained(rows: map<(nat, nat), Row>, portal: nat)
    ensures RowsGained(rows, rows, portal, map[])
  {
  }

  lemma NothingGained(b: Outbound.World, c: Outbound.World, portal: nat)
    requires SamePortal(b, c, portal)
    ensures RowsGained(b.rows, c.rows, portal, map[])
  {
  }

  lemma GainedSince(b: Outbound.World, c: Outbound.World, d: Outbound.World, portal: nat, gained: map<(nat, nat), Row>)
    requires SamePortal(b, c, portal) && RowsGained(c.rows, d.rows, portal, gained)
    ensures RowsGained(b.rows, d.rows, portal, gained)
  {
  }

  lemma OneGained(b: Outbound.World, c: Outbound.World, d: Outbound.World, e: Outbound.World, key: (nat, nat), row: Row)
    requires SamePortal(b, c, key.0) && d.rows == c.rows[key := row] && SamePortal(d, e, key.0)
    ensures RowsGained(b.rows, e.rows, key.0, map[key := row])
  {
  }

  /** An event without a row in its portal still has none, unless it gained one. */
  lemma GainsNoRow(b: Outbound.World, c: Outbound.World, portal: nat, gained: map<(nat, nat), Row>, t: Transaction)
    requires Outbound.Inv(c) && RowsGained(b.rows, c.rows, portal, gained) && t.portal == portal && !HasRow(b.rows, t)
    requires forall key :: key in gained && gained[key].FromMatrix? ==> gained[key].transaction != t
    ensures !HasRow(c.rows, t)
  {
    forall key | key in c.rows && c.rows[key].FromMatrix? ensures c.rows[key].transaction != t {
      assert RowOk(c, key);
    }
  }

  lemma StillNoRow(b: Outbound.World, c: Outbound.World, portal: nat, t: Transaction)
    requires Outbound.Inv(c) && SamePortal(b, c, portal) && t.portal == portal && !HasRow(b.rows, t)
    ensures !HasRow(c.rows, t)
  {
    NothingGained(b, c, portal);
    GainsNoRow(b, c, portal, map[], t);
  }

  /** An entry is its own portal's. */
  lemma EntryIs(b: Outbound.World, portal: nat)
    requires Outbound.Inv(b)
    ensures portal in b.outbox ==> b.outbox[portal].request.transaction.portal == portal
  {
  }

  /** The accepted message of an event without a row has no row either. */
  lemma KeyIsFree(b: Outbound.World, c: Outbound.World, portal: nat, task: Task, out: Entry, message: nat)
    requires Outbound.Inv(c) && SamePortal(b, c, portal) && !HasRow(b.rows, out.request.transaction)
    requires portal in c.handlers && c.handlers[portal] == Handler(task, Keeping(out, message))
    ensures (portal, message) !in c.rows
  {
    assert StageOk(c, portal, c.handlers[portal]);
    EntryIs(c, portal);
    StillNoRow(b, c, portal, out.request.transaction);
    OutboundRecovery.AcceptedKeyIsFree(c, portal, out, message);
  }

  lemma StoredKeyIsFree(b: Outbound.World, c: Outbound.World, portal: nat, entry: Entry, message: nat)
    requires Outbound.Inv(c) && SamePortal(b, c, portal) && !HasRow(b.rows, entry.request.transaction)
    requires portal in c.handlers && c.handlers[portal] == Handler(Reply(entry), Storing(message))
    ensures (portal, message) !in c.rows
  {
    assert StageOk(c, portal, c.handlers[portal]);
    StillNoRow(b, c, portal, entry.request.transaction);
    OutboundRecovery.AcceptedKeyIsFree(c, portal, entry, message);
  }

  /** With the outbox empty, an item of the portal's own Matrix events has its row. */
  lemma OwnItemHasRow(b: Outbound.World, portal: nat, item: Item)
    requires Outbound.Inv(b) && portal !in b.outbox && item in Log(b.adapter, portal) && item.client.Some?
    ensures (portal, item.id) in b.rows
  {
    assert LogOk(Log(b.adapter, portal), portal);
    OutboundSafety.ItemHasRow(b, portal, item);
  }

  /** How HandleMatrixMessage ends: never begun, associated, explicitly refused, or kept for recovery. */
  datatype Outcome = NotBegun | Associated(message: nat) | RefusedOutright | Retained

  /** Nothing is left over from an earlier reply, or only an entry whose event has its row. */
  predicate Settled(b: Outbound.World, portal: nat) {
    portal !in b.outbox || HasRow(b.rows, b.outbox[portal].request.transaction)
  }

  predicate IsSent(heard: Option<Reply>) {
    heard.Some? && heard.value.Sent?
  }

  /** The row that recovery adds when the backend accepted the entry's request. */
  function RowOf(portal: nat, out: Entry, heard: Option<Reply>): map<(nat, nat), Row> {
    if IsSent(heard) then map[(portal, heard.value.message) := FromMatrix(out.request.transaction, out.request.text)]
    else map[]
  }

  /** On the way from one world to another the handler awaited this process, and this is what it heard. */
  ghost predicate Heard(b: Outbound.World, at: Outbound.World, c: Outbound.World, portal: nat, handler: Handler, pid: nat, heard: Option<Reply>) {
    && Led(b, at) && Led(at, c)
    && portal in at.handlers && at.handlers[portal] == handler && heard == ReplyOf(at.adapter, pid)
  }

  lemma HeardOn(b: Outbound.World, at: Outbound.World, c: Outbound.World, d: Outbound.World,
                portal: nat, handler: Handler, pid: nat, heard: Option<Reply>)
    requires Heard(b, at, c, portal, handler, pid, heard) && Led(c, d)
    ensures Heard(b, at, d, portal, handler, pid, heard)
  {
    hide Led;
    LedOn(at, c, d);
  }

  lemma HeardSince(a: Outbound.World, b: Outbound.World, at: Outbound.World, c: Outbound.World,
                   portal: nat, handler: Handler, pid: nat, heard: Option<Reply>)
    requires Led(a, b) && Heard(b, at, c, portal, handler, pid, heard)
    ensures Heard(a, at, c, portal, handler, pid, heard)
  {
    hide Led;
    LedOn(a, b, at);
  }

  /** The event has no row, and its reply is not waiting in the outbox either. */
  predicate IsNew(b: Outbound.World, t: Transaction) {
    !HasRow(b.rows, t) && !Pending(b, t)
  }

  class Client {
    var adapter: Journal.World
    var outbox: map<nat, Entry>
    var rows: map<(nat, nat), Row>
    var handlers: map<nat, Handler>
    var direct: map<nat, Handler>
    var shown: seq<(nat, Item)>
    var next: nat

    function Now(): Outbound.World
      reads this
    {
      Outbound.World(adapter, outbox, rows, handlers, direct, shown, next)
    }

    constructor ()
      ensures OutboundSafety.Fresh(Now()) && handlers == map[] && direct == map[]
    {
      adapter := Journal.World(map[], multiset{}, multiset{}, map[], map[], map[]);
      outbox, rows, handlers, direct := map[], map[], map[], map[];
      shown, next := [], 0;
    }

    /** The handler stands at this stage of its task, in a run that keeps the invariant. */
    ghost predicate Stands(start: Outbound.World, portal: nat, task: Task, stage: Stage)
      reads this
    {
      && Outbound.Inv(Now()) && Led(start, Now())
      && portal in handlers && handlers[portal] == Handler(task, stage)
    }

    /** The handler has returned. */
    ghost predicate Returned(start: Outbound.World, portal: nat)
      reads this
    {
      Outbound.Inv(Now()) && Led(start, Now()) && portal !in handlers
    }

    /**
     Between two operations of a handler: any number of steps of anyone else. Here and below, calm
     means that no store operation and no receipt lookup fails, and that no recovery of this portal runs
     outside the queue; beside a reply there is none anyway.
     */
    method Interfere(portal: nat, calm: bool, ghost start: Outbound.World, ghost task: Task, ghost stage: Stage)
      requires Stands(start, portal, task, stage) && (calm ==> portal !in direct)
      modifies this
      ensures Stands(start, portal, task, stage) && (calm ==> portal !in direct)
      ensures calm || task.Reply? ==> SamePortal(old(Now()), Now(), portal)
    {
      hide Outbound.Next, Outbound.Inv, SamePortal;
      PortalIsSame(Now(), Now(), portal);
      var rounds: nat := *;
      while rounds > 0
        invariant Stands(start, portal, task, stage) && (calm ==> portal !in direct)
        invariant calm || task.Reply? ==> SamePortal(old(Now()), Now(), portal)
      {
        var action: Outbound.Action := *;
        if ByOthers(Now(), action, portal) && !(calm && Beside(Now(), action, portal)) {
          ghost var before := Now();
          var c := Outbound.Next(Now(), action);
          HandlerKept(before, action, portal);
          if task.Reply? { NoneBesideReplies(before, action, portal); }
          if !Beside(before, action, portal) {
            ElsewhereKeepsPortal(before, action, portal);
            if calm || task.Reply? { SameOn(old(Now()), before, c, portal); }
          }
          OutboundSafety.NextKeepsInv(before, action);
          LedStep(start, before, action);
          adapter, outbox, rows := c.adapter, c.outbox, c.rows;
          handlers, direct, shown, next := c.handlers, c.direct, c.shown, c.next;
          assert Now() == c;
        }
        rounds := rounds - 1;
      }
    }

    /** The machine's next step of this handler is this one. */
    ghost predicate May(portal: nat, ok: bool, stage: Option<Stage>, change: Change)
      reads this
    {
      portal in handlers && HandlerStep(Now(), portal, handlers[portal], ok) == Some(Outbound.Step(stage, change))
    }

    /** The handler moves to its next stage, or returns, without a store operation. */
    method Turn(portal: nat, stage: Option<Stage>, ghost ok: bool)
      requires May(portal, ok, stage, Keep)
      modifies `handlers
      ensures Now() == Outbound.Next(old(Now()), Queue(portal, ok))
      ensures handlers == Outbound.Advance(old(handlers), portal, stage)
    {
      hide Outbound.Next, HandlerStep, Journal.Next;
      OutboundSafety.StepEffect(Now(), OutboundSafety.Queued, portal, ok);
      handlers := Outbound.Advance(handlers, portal, stage);
    }

    method PutOutbox(portal: nat, entry: Entry, stage: Stage)
      requires May(portal, true, Some(stage), Store(entry))
      modifies `handlers, `outbox
      ensures Now() == Outbound.Next(old(Now()), Queue(portal, true))
      ensures handlers == Outbound.Advance(old(handlers), portal, Some(stage))
    {
      hide Outbound.Next, HandlerStep, Journal.Next;
      OutboundSafety.StepEffect(Now(), OutboundSafety.Queued, portal, true);
      outbox := outbox[portal := entry];
      handlers := Outbound.Advance(handlers, portal, Some(stage));
    }

    method DropOutbox(portal: nat, stage: Option<Stage>)
      requires May(portal, true, stage, Delete)
      modifies `handlers, `outbox
      ensures Now() == Outbound.Next(old(Now()), Queue(portal, true))
      ensures handlers == Outbound.Advance(old(handlers), portal, stage) && portal !in outbox
    {
      hide Outbound.Next, HandlerStep, Journal.Next;
      OutboundSafety.StepEffect(Now(), OutboundSafety.Queued, portal, true);
      outbox := outbox - {portal};
      handlers := Outbound.Advance(handlers, portal, stage);
    }

    method InsertRow(portal: nat, message: nat, request: Request, stage: Stage)
      requires May(portal, true, Some(stage), Insert(message, request.transaction, request.text))
      modifies `handlers, `rows
      ensures Now() == Outbound.Next(old(Now()), Queue(portal, true))
      ensures handlers == Outbound.Advance(old(handlers), portal, Some(stage))
      ensures rows == old(rows)[(portal, message) := FromMatrix(request.transaction, request.text)]
    {
      hide Outbound.Next, HandlerStep, Journal.Next;
      OutboundSafety.StepEffect(Now(), OutboundSafety.Queued, portal, true);
      rows := rows[(portal, message) := FromMatrix(request.transaction, request.text)];
      handlers := Outbound.Advance(handlers, portal, Some(stage));
    }

    method SendToMatrix(portal: nat, item: Item, committed: bool)
      requires May(portal, committed, None, Display(item, committed))
      modifies `handlers, `rows, `shown
      ensures Now() == Outbound.Next(old(Now()), Queue(portal, committed))
      ensures handlers == Outbound.Advance(old(handlers), portal, None) && shown == old(shown) + [(portal, item)]
      ensures rows == if committed then old(rows)[(portal, item.id) := Mirrored] else old(rows)
    {
      hide Outbound.Next, HandlerStep, Journal.Next;
      OutboundSafety.StepEffect(Now(), OutboundSafety.Queued, portal, committed);
      shown := shown + [(portal, item)];
      if committed { rows := rows[(portal, item.id) := Mirrored]; }
      handlers := Outbound.Advance(handlers, portal, None);
    }

    /** Starts an adapter process for the request. */
    method Launch(portal: nat, request: Request, stage: Stage)
      requires May(portal, true, Some(stage), Start(request))
      modifies `handlers, `adapter, `next
      ensures Now() == Outbound.Next(old(Now()), Queue(portal, true))
      ensures handlers == Outbound.Advance(old(handlers), portal, Some(stage))
    {
      hide Outbound.Next, HandlerStep, Journal.Next;
      OutboundSafety.StepEffect(Now(), OutboundSafety.Queued, portal, true);
      adapter := Journal.Next(adapter, Spawn(next, request));
      next := next + 1;
      handlers := Outbound.Advance(handlers, portal, Some(stage));
    }

    /** Takes the finished process's answer. */
    method Collect(portal: nat, pid: nat, stage: Option<Stage>)
      requires May(portal, true, stage, Reap(pid))
      modifies `handlers, `adapter
      ensures Now() == Outbound.Next(old(Now()), Queue(portal, true))
      ensures handlers == Outbound.Advance(old(handlers), portal, stage)
    {
      hide Outbound.Next, HandlerStep, Journal.Next;
      OutboundSafety.StepEffect(Now(), OutboundSafety.Queued, portal, true);
      adapter := Journal.Next(adapter, Act(pid, Die));
      handlers := Outbound.Advance(handlers, portal, stage);
    }

    lemma Stepped(start: Outbound.World, before: Outbound.World, portal: nat, ok: bool)
      requires Outbound.Inv(before) && Led(start, before) && Now() == Outbound.Next(before, Queue(portal, ok))
      ensures Outbound.Inv(Now()) && Led(start, Now())
    {
      OutboundSafety.NextKeepsInv(before, Queue(portal, ok));
      LedStep(start, before, Queue(portal, ok));
    }

    /** Waits for the process's answer, for as long as patience lasts. */
    method Await(portal: nat, pid: nat, patience: nat, calm: bool, ghost start: Outbound.World, ghost task: Task, ghost stage: Stage)
      returns (reply: Option<Reply>)
      requires Stands(start, portal, task, stage) && (calm ==> portal !in direct)
      modifies this
      ensures Stands(start, portal, task, stage) && (calm ==> portal !in direct)
      ensures calm || task.Reply? ==> SamePortal(old(Now()), Now(), portal)
      ensures reply == ReplyOf(adapter, pid)
    {
      hide Outbound.Inv, SamePortal;
      PortalIsSame(Now(), Now(), portal);
      var left := patience;
      while left > 0 && ReplyOf(adapter, pid).None?
        invariant Stands(start, portal, task, stage) && (calm ==> portal !in direct)
        invariant calm || task.Reply? ==> SamePortal(old(Now()), Now(), portal)
      {
        ghost var before := Now();
        Interfere(portal, calm, start, task, stage);
        if calm || task.Reply? { SameOn(old(Now()), before, Now(), portal); }
        left := left - 1;
      }
      return ReplyOf(adapter, pid);
    }

    /** The handler gives up; the stores stay as they are. */
    method GiveUp(portal: nat, ghost start: Outbound.World, ghost task: Task, ghost stage: Stage)
      requires Stands(start, portal, task, stage) && May(portal, false, None, Keep)
      modifies `handlers
      ensures Returned(start, portal)
    {
      ghost var before := Now();
      Turn(portal, None, false);
      Stepped(start, before, portal, false);
    }

    /** finishRecovery: once its receipt is out, the settled entry is deleted. */
    method FinishRecovery(portal: nat, out: Entry, calm: bool, ghost start: Outbound.World, ghost task: Task) returns (ok: bool)
      requires Stands(start, portal, task, Settling(out))
      modifies this
      ensures if ok then Stands(start, portal, task, Running) && portal !in outbox else Returned(start, portal) && outbox == old(outbox)
      ensures rows == old(rows) && (calm ==> ok)
      ensures portal in direct ==> portal in old(direct)
    {
      hide Outbound.Inv, Outbound.Next;
      ok := *;   // the receipt lookup or the store may fail
      ok := ok || calm;
      if !ok {
        GiveUp(portal, start, task, Settling(out));
        return;
      }
      ghost var before := Now();
      DropOutbox(portal, Some(Running));
      Stepped(start, before, portal, true);
    }

    /** The saved request is replayed; an accepted answer gives its event a row. */
    method Replay(portal: nat, out: Entry, patience: nat, calm: bool, ghost start: Outbound.World, ghost task: Task)
      returns (ok: bool, heard: Option<Reply>, ghost at: Outbound.World, ghost pid: nat)
      requires Stands(start, portal, task, Check) && portal in outbox && outbox[portal] == out
      requires !HasRow(rows, out.request.transaction) && (calm ==> portal !in direct)
      modifies this
      ensures if ok then Stands(start, portal, task, Settling(out)) else Returned(start, portal)
      ensures Heard(start, at, Now(), portal, Handler(task, Asking(out, pid)), pid, heard)
      ensures ok ==> IsSent(heard)
      ensures calm && IsSent(heard) ==> ok
      ensures calm || task.Reply? ==> portal in outbox && outbox[portal] == out
      ensures ok && (calm || task.Reply?) ==> RowsGained(old(rows), rows, portal, RowOf(portal, out, heard))
      ensures calm ==> portal !in direct
    {
      hide Outbound.Inv, Outbound.Next, Led, SamePortal, RowsGained, Apply;
      var process := next;
      pid := process;
      ghost var first := Now();
      Launch(portal, out.request, Asking(out, process));
      Stepped(start, first, portal, true);
      EntryIs(first, portal);
      ghost var launched := Now();
      heard := Await(portal, process, patience, calm, start, task, Asking(out, pid));
      at := Now();
      LedSelf(at);
      if calm || task.Reply? {
        PortalIsSame(first, launched, portal);
        SameOn(first, launched, at, portal);
        EntryIsSame(first, at, portal);
      }
      if heard.None? {
        GiveUp(portal, at, task, Asking(out, pid));
        LedOn(start, at, Now());
        return false, heard, at, pid;
      }
      if calm { StillNoRow(first, at, portal, out.request.transaction); }
      ok := Conclude(portal, out, process, heard.value, calm, at, task);
      LedOn(start, at, Now());
      if ok && (calm || task.Reply?) {
        GainedSince(first, at, Now(), portal, RowOf(portal, out, heard));
      }
    }

    /** What recovery does with the backend's answer. */
    method Conclude(portal: nat, out: Entry, pid: nat, answer: Reply, calm: bool, ghost start: Outbound.World, ghost task: Task)
      returns (ok: bool)
      requires Stands(start, portal, task, Asking(out, pid)) && ReplyOf(adapter, pid) == Some(answer)
      requires calm ==> !HasRow(rows, out.request.transaction) && portal !in direct
      modifies this
      ensures if ok then Stands(start, portal, task, Settling(out)) else Returned(start, portal)
      ensures ok ==> answer.Sent?
      ensures calm && answer.Sent? ==> ok
      ensures calm || task.Reply? ==> SameEntry(old(Now()), Now(), portal)
      ensures ok && (calm || task.Reply?) ==> RowsGained(old(rows), rows, portal, RowOf(portal, out, Some(answer)))
      ensures calm ==> portal !in direct
    {
      hide Outbound.Inv, Outbound.Next, Led, SamePortal, RowsGained, Apply;
      ghost var before := Now();
      if !answer.Sent? {
        Collect(portal, pid, None);
        Stepped(start, before, portal, true);
        return false;
      }
      Collect(portal, pid, Some(Keeping(out, answer.message)));
      Stepped(start, before, portal, true);
      ok := Associate(portal, out, answer.message, calm, start, task);
    }

    /** Recovery inserts the row that ties the original event to the accepted message. */
    method Associate(portal: nat, out: Entry, message: nat, calm: bool, ghost start: Outbound.World, ghost task: Task) returns (ok: bool)
      requires Stands(start, portal, task, Keeping(out, message))
      requires calm ==> !HasRow(rows, out.request.transaction) && portal !in direct
      modifies this
      ensures if ok then Stands(start, portal, task, Settling(out)) else Returned(start, portal)
      ensures calm ==> ok && portal !in direct
      ensures calm || task.Reply? ==> SameEntry(old(Now()), Now(), portal)
      ensures ok && (calm || task.Reply?) ==> RowsGained(old(rows), rows, portal, RowOf(portal, out, Some(Sent(message))))
    {
      hide Outbound.Inv, Outbound.Next, Led, SamePortal, RowsGained, Apply;
      ghost var first := Now();
      Interfere(portal, calm, start, task, Keeping(out, message));
      if calm { KeyIsFree(first, Now(), portal, task, out, message); }
      if calm || task.Reply? { EntryIsSame(first, Now(), portal); }
      ok := *;
      ok := ok || calm;
      if !ok || (portal, message) in rows {
        GiveUp(portal, start, task, Keeping(out, message));
        return false;
      }
      ghost var before := Now();
      InsertRow(portal, message, out.request, Settling(out));
      Stepped(start, before, portal, true);
      ghost var inserted := Now();
      Interfere(portal, calm, start, task, Settling(out));
      if calm || task.Reply? {
        EntryIsSame(inserted, Now(), portal);
        OneGained(first, before, inserted, Now(), (portal, message), FromMatrix(out.request.transaction, out.request.text));
      }
    }

    /** recoverOutbound: on success the outbox is empty, whatever it held; a failure keeps what it held. */
    method RecoverOutbound(portal: nat, patience: nat, calm: bool, ghost start: Outbound.World, ghost task: Task)
      returns (ok: bool, heard: Option<Reply>, ghost at: Outbound.World, ghost pid: nat)
      requires Stands(start, portal, task, Check) && (calm ==> portal !in direct)
      modifies this
      ensures if ok then Stands(start, portal, task, Running) && portal !in outbox else Returned(start, portal)
      ensures calm ==> (ok <==> old(Settled(Now(), portal)) || IsSent(heard)) && portal !in direct
      ensures old(Settled(Now(), portal)) ==> heard.None?
      ensures calm && !old(Settled(Now(), portal)) ==>
        Heard(start, at, Now(), portal, Handler(task, Asking(old(outbox[portal]), pid)), pid, heard)
      ensures !ok && (calm || task.Reply?) ==> SameEntry(old(Now()), Now(), portal)
      ensures ok && (calm || task.Reply?) ==>
        RowsGained(old(rows), rows, portal, if old(portal in outbox) then RowOf(portal, old(outbox[portal]), heard) else map[])
    {
      hide Outbound.Inv, Outbound.Next, Led, HasRow, Heard, Apply, RowsGained;
      heard, at, pid := None, Now(), 0;
      NoneGained(rows, portal);
      ok := *;   // the outbox cannot be read, or sending is disabled
      ok := ok || calm;
      if !ok {
        GiveUp(portal, start, task, Check);
        return;
      }
      ghost var before := Now();
      if portal !in outbox {
        Turn(portal, Some(Running), true);
        Stepped(start, before, portal, true);
        return;
      }
      var out := outbox[portal];
      if HasRow(rows, out.request.transaction) {
        ok := FinishEarlier(portal, out, calm, start, task);
      } else {
        ok, heard, at, pid := Reconcile(portal, out, patience, calm, start, task);
      }
    }

    /** An entry whose event has its row already only has to be finished. */
    method FinishEarlier(portal: nat, out: Entry, calm: bool, ghost start: Outbound.World, ghost task: Task) returns (ok: bool)
      requires Stands(start, portal, task, Check) && portal in outbox && outbox[portal] == out
      requires HasRow(rows, out.request.transaction) && (calm ==> portal !in direct)
      modifies this
      ensures if ok then Stands(start, portal, task, Running) && portal !in outbox else Returned(start, portal) && outbox == old(outbox)
      ensures rows == old(rows) && (calm ==> ok && portal !in direct)
    {
      hide Outbound.Inv, Outbound.Next, Led, HasRow;
      ghost var before := Now();
      Turn(portal, Some(Settling(out)), true);
      Stepped(start, before, portal, true);
      ok := FinishRecovery(portal, out, calm, start, task);
    }

    /** An entry whose event has no row: its request is replayed, and then it is settled. */
    method Reconcile(portal: nat, out: Entry, patience: nat, calm: bool, ghost start: Outbound.World, ghost task: Task)
      returns (ok: bool, heard: Option<Reply>, ghost at: Outbound.World, ghost pid: nat)
      requires Stands(start, portal, task, Check) && portal in outbox && outbox[portal] == out
      requires !HasRow(rows, out.request.transaction) && (calm ==> portal !in direct)
      modifies this
      ensures if ok then Stands(start, portal, task, Running) && portal !in outbox else Returned(start, portal)
      ensures calm ==> (ok <==> IsSent(heard)) && portal !in direct
      ensures Heard(start, at, Now(), portal, Handler(task, Asking(out, pid)), pid, heard)
      ensures !ok && (calm || task.Reply?) ==> portal in outbox && outbox[portal] == out
      ensures ok && (calm || task.Reply?) ==> RowsGained(old(rows), rows, portal, RowOf(portal, out, heard))
    {
      hide Outbound.Inv, Outbound.Next, Led, HasRow, RowsGained, Apply;
      ok, heard, at, pid := Replay(portal, out, patience, calm, start, task);
      if !ok { return; }
      ghost var asked := Now();
      LedSelf(asked);
      ok := FinishRecovery(portal, out, calm, asked, task);
      LedOn(start, asked, Now());
      HeardOn(start, at, asked, Now(), portal, Handler(task, Asking(out, pid)), pid, heard);
    }

    /** The portal's queue takes up a task. */
    method Enter(portal: nat, task: Task)
      requires Outbound.Inv(Now()) && portal !in handlers && CanBegin(Now(), portal, task)
      requires task.Reply? ==> portal !in direct
      modifies `handlers
      ensures Stands(old(Now()), portal, task, Check)
    {
      ghost var start := Now();
      LedSelf(start);
      handlers := handlers[portal := Handler(task, Check)];
      OutboundSafety.NextKeepsInv(start, Begin(portal, task));
      LedStep(start, start, Begin(portal, task));
    }

    /** A source message: recovery first, and nothing is shown while it does not succeed. */
    method HandleSourceMessage(portal: nat, item: Item, patience: nat, calm: bool)
      returns (sent: bool, replayed: Option<Reply>, ghost at: Outbound.World, ghost pid: nat)
      requires Outbound.Inv(Now()) && portal !in handlers && item in Log(adapter, portal) && (calm ==> portal !in direct)
      modifies this
      ensures Returned(old(Now()), portal)
      ensures sent ==> portal !in outbox && item.client.None? && shown != [] && shown[|shown| - 1] == (portal, item)
      ensures old(Settled(Now(), portal)) ==> replayed.None?
      ensures calm && !old(Settled(Now(), portal)) ==>
        Heard(old(Now()), at, Now(), portal, Handler(Show(item), Asking(old(outbox[portal]), pid)), pid, replayed)
      ensures calm ==>
        (sent <==> (old(Settled(Now(), portal)) || IsSent(replayed))
                   && old((portal, item.id) !in rows) && replayed != Some(Sent(item.id)))
      ensures calm && sent ==> (portal, item.id) in rows && rows[(portal, item.id)] == Mirrored
    {
      hide Outbound.Inv, Outbound.Next, Led, HasRow, Heard, Apply;
      ghost var start := Now();
      var task := Show(item);
      Enter(portal, task);
      var ok;
      ok, replayed, at, pid := RecoverOutbound(portal, patience, calm, start, task);
      if !ok { return false, replayed, at, pid; }
      ghost var recovered := Now();
      LedSelf(recovered);
      sent := Present(portal, item, calm, recovered);
      LedOn(start, recovered, Now());
      if calm && !Settled(start, portal) {
        HeardOn(start, at, recovered, Now(), portal, Handler(task, Asking(start.outbox[portal], pid)), pid, replayed);
      }
    }

    /** Once recovery is done: a message without a row is sent, and the framework inserts its row. */
    method Present(portal: nat, item: Item, calm: bool, ghost start: Outbound.World) returns (sent: bool)
      requires Stands(start, portal, Show(item), Running)
      modifies this
      ensures Returned(start, portal) && portal !in outbox
      ensures sent <==> old((portal, item.id) !in rows)
      ensures sent ==> item.client.None? && shown != [] && shown[|shown| - 1] == (portal, item)
      ensures calm && sent ==> (portal, item.id) in rows && rows[(portal, item.id)] == Mirrored
    {
      hide Outbound.Inv, Outbound.Next, Led;
      ghost var before := Now();
      OutboundSafety.StageHolds(Now(), OutboundSafety.Queued, portal);
      var committed: bool := *;
      committed := committed || calm;
      if (portal, item.id) in rows {
        sent := false;
        Turn(portal, None, committed);
      } else {
        if item.client.Some? { OwnItemHasRow(Now(), portal, item); }
        sent := true;
        SendToMatrix(portal, item, committed);
      }
      Stepped(start, before, portal, committed);
    }

    /** What HandleMatrixMessage's answer says of the stores. */
    ghost predicate Means(portal: nat, entry: Entry, outcome: Outcome)
      reads this
    {
      var t := entry.request.transaction;
      match outcome
      case NotBegun => true
      case Associated(message) => (portal, message) in rows && rows[(portal, message)] == FromMatrix(t, entry.request.text)
      case RefusedOutright => portal !in outbox && (HasRow(rows, t) || Quiet(adapter, t))
      case Retained => portal in outbox && outbox[portal] == entry
    }

    /** How the handler ends when nothing fails, given the backend's answer. */
    ghost predicate Ends(portal: nat, heard: Option<Reply>, outcome: Outcome)
      reads this
    {
      match heard
      case Some(Sent(message)) => outcome == Associated(message) && portal !in outbox
      case Some(Unsent) => outcome == RefusedOutright
      case _ => outcome == Retained
    }

    /** What was heard: a refusal without any process, or what the handler's own process answered. */
    ghost predicate Answered(start: Outbound.World, portal: nat, entry: Entry, refused: bool,
                             at: Outbound.World, pid: nat, heard: Option<Reply>)
      reads this
    {
      if refused then heard == Some(Unsent)
      else Heard(start, at, Now(), portal, Handler(Reply(entry), Sending(pid)), pid, heard)
    }

    /** An explicit refusal: the entry is deleted, or kept if that fails. */
    method Dismiss(portal: nat, entry: Entry, calm: bool, ghost start: Outbound.World) returns (outcome: Outcome)
      requires Stands(start, portal, Reply(entry), Rejecting)
      modifies this
      ensures Returned(start, portal) && Means(portal, entry, outcome) && !outcome.NotBegun?
      ensures calm ==> outcome == RefusedOutright
    {
      hide Outbound.Inv, Outbound.Next;
      Interfere(portal, false, start, Reply(entry), Rejecting);
      OutboundSafety.StageHolds(Now(), OutboundSafety.Queued, portal);
      var ok: bool := *;
      ok := ok || calm;
      if !ok {
        GiveUp(portal, start, Reply(entry), Rejecting);
        return Retained;
      }
      ghost var before := Now();
      DropOutbox(portal, None);
      Stepped(start, before, portal, true);
      return RefusedOutright;
    }

    /** The framework's part after an accepted send: insert the row, then PostSave deletes the entry. */
    method SaveResponse(portal: nat, entry: Entry, message: nat, calm: bool, ghost start: Outbound.World) returns (outcome: Outcome)
      requires Stands(start, portal, Reply(entry), Storing(message))
      modifies this
      ensures Returned(start, portal) && Means(portal, entry, outcome) && !outcome.NotBegun?
      ensures calm && !old(HasRow(rows, entry.request.transaction)) ==> outcome == Associated(message) && portal !in outbox
    {
      hide Outbound.Inv, Outbound.Next;
      ghost var first := Now();
      Interfere(portal, false, start, Reply(entry), Storing(message));
      OutboundSafety.StageHolds(Now(), OutboundSafety.Queued, portal);
      if !HasRow(first.rows, entry.request.transaction) { StoredKeyIsFree(first, Now(), portal, entry, message); }
      var ok: bool := *;
      ok := ok || calm;
      if !ok || (portal, message) in rows {
        GiveUp(portal, start, Reply(entry), Storing(message));
        return Retained;
      }
      ghost var before := Now();
      InsertRow(portal, message, entry.request, Clearing);
      Stepped(start, before, portal, true);
      PostSave(portal, entry, message, calm, start);
      return Associated(message);
    }

    /** PostSave: a failure to delete the entry is left for the next recovery. */
    method PostSave(portal: nat, entry: Entry, message: nat, calm: bool, ghost start: Outbound.World)
      requires Stands(start, portal, Reply(entry), Clearing) && Means(portal, entry, Associated(message))
      modifies this
      ensures Returned(start, portal) && Means(portal, entry, Associated(message))
      ensures calm ==> portal !in outbox
    {
      hide Outbound.Inv, Outbound.Next;
      var ok: bool := *;
      ok := ok || calm;
      if !ok {
        GiveUp(portal, start, Reply(entry), Clearing);
        return;
      }
      ghost var before := Now();
      DropOutbox(portal, None);
      Stepped(start, before, portal, true);
    }

    /** The stored request is sent; only an explicit refusal deletes its entry. */
    method SendStored(portal: nat, entry: Entry, refused: bool, patience: nat, calm: bool, ghost start: Outbound.World)
      returns (outcome: Outcome, heard: Option<Reply>, ghost at: Outbound.World, ghost pid: nat)
      requires Stands(start, portal, Reply(entry), Prepared)
      modifies this
      ensures Returned(start, portal) && Means(portal, entry, outcome) && !outcome.NotBegun?
      ensures Answered(start, portal, entry, refused, at, pid, heard)
      ensures calm && !old(HasRow(rows, entry.request.transaction)) ==> Ends(portal, heard, outcome)
    {
      hide Outbound.Inv, Outbound.Next, Led;
      ghost var before := Now();
      at, pid := before, 0;
      if refused {
        Turn(portal, Some(Rejecting), false);
        Stepped(start, before, portal, false);
        outcome := Dismiss(portal, entry, calm, start);
        return outcome, Some(Unsent), at, pid;
      }
      var process := next;
      pid := process;
      Launch(portal, entry.request, Sending(process));
      Stepped(start, before, portal, true);
      ghost var first := Now();
      heard := Await(portal, process, patience, false, start, Reply(entry), Sending(pid));
      at := Now();
      LedSelf(at);
      OutboundSafety.StageHolds(Now(), OutboundSafety.Queued, portal);
      if !HasRow(first.rows, entry.request.transaction) { StillNoRow(first, at, portal, entry.request.transaction); }
      outcome := Receive(portal, entry, process, heard, calm, at);
      LedOn(start, at, Now());
    }

    /** What the handler does with the backend's answer. */
    method Receive(portal: nat, entry: Entry, pid: nat, heard: Option<Reply>, calm: bool, ghost start: Outbound.World)
      returns (outcome: Outcome)
      requires Stands(start, portal, Reply(entry), Sending(pid)) && heard == ReplyOf(adapter, pid)
      modifies this
      ensures Returned(start, portal) && Means(portal, entry, outcome) && !outcome.NotBegun?
      ensures calm && !old(HasRow(rows, entry.request.transaction)) ==> Ends(portal, heard, outcome)
    {
      hide Outbound.Inv, Outbound.Next, Led;
      OutboundSafety.StageHolds(Now(), OutboundSafety.Queued, portal);
      ghost var before := Now();
      if heard.None? {
        GiveUp(portal, start, Reply(entry), Sending(pid));
        return Retained;
      }
      match heard.value {
        case Uncertain =>
          Collect(portal, pid, None);
          Stepped(start, before, portal, true);
          return Retained;
        case Unsent =>
          Collect(portal, pid, Some(Rejecting));
          Stepped(start, before, portal, true);
          outcome := Dismiss(portal, entry, calm, start);
        case Sent(message) =>
          Collect(portal, pid, Some(Storing(message)));
          Stepped(start, before, portal, true);
          outcome := SaveResponse(portal, entry, message, calm, start);
      }
    }

    /** Once recovery is done: the entry is stored, and its request sent. */
    method StoreAndSend(portal: nat, entry: Entry, refused: bool, patience: nat, calm: bool, ghost start: Outbound.World)
      returns (outcome: Outcome, heard: Option<Reply>, ghost at: Outbound.World, ghost pid: nat)
      requires Stands(start, portal, Reply(entry), Running)
      modifies this
      ensures Returned(start, portal) && Means(portal, entry, outcome) && !outcome.NotBegun?
      ensures Answered(start, portal, entry, refused, at, pid, heard)
      ensures calm && !old(HasRow(rows, entry.request.transaction)) ==> Ends(portal, heard, outcome)
    {
      hide Outbound.Inv, Outbound.Next, Led;
      ghost var before := Now();
      PutOutbox(portal, entry, Prepared);
      Stepped(start, before, portal, true);
      ghost var stored := Now();
      Interfere(portal, false, start, Reply(entry), Prepared);
      OutboundSafety.StageHolds(Now(), OutboundSafety.Queued, portal);
      if !HasRow(stored.rows, entry.request.transaction) { StillNoRow(stored, Now(), portal, entry.request.transaction); }
      outcome, heard, at, pid := SendStored(portal, entry, refused, patience, calm, start);
    }

    /**
     HandleMatrixMessage for a reply that passes its checks: recover, store the request, send it,
     and delete it only when it is associated or explicitly refused. refused: send itself turns the
     request down before any process is started. asked and at are the worlds in which the backend's
     answers to the replayed and to the new request were heard.
     */
    method HandleMatrixMessage(portal: nat, entry: Entry, refused: bool, patience: nat, calm: bool)
      returns (outcome: Outcome, replayed: Option<Reply>, heard: Option<Reply>,
               ghost asked: Outbound.World, ghost first: nat, ghost at: Outbound.World, ghost pid: nat)
      requires Outbound.Inv(Now()) && portal !in handlers && portal !in direct && entry.request.transaction.portal == portal
      modifies this
      ensures Returned(old(Now()), portal) && Means(portal, entry, outcome)
      ensures outcome.NotBegun? ==> portal !in outbox || SameEntry(old(Now()), Now(), portal)
      ensures !outcome.NotBegun? ==> Answered(old(Now()), portal, entry, refused, at, pid, heard)
      ensures old(Settled(Now(), portal)) ==> replayed.None?
      ensures calm && !old(Settled(Now(), portal)) ==>
        Heard(old(Now()), asked, Now(), portal, Handler(Reply(entry), Asking(old(outbox[portal]), first)), first, replayed)
      ensures calm ==> (outcome.NotBegun? <==> !old(Settled(Now(), portal)) && !IsSent(replayed))
      ensures calm && !outcome.NotBegun? && old(IsNew(Now(), entry.request.transaction)) ==> Ends(portal, heard, outcome)
    {
      hide Outbound.Inv, Outbound.Next, Led;
      ghost var start := Now();
      var task := Reply(entry);
      heard, at, pid := None, start, 0;
      Enter(portal, task);
      var ok;
      ok, replayed, asked, first := RecoverOutbound(portal, patience, calm, start, task);
      if !ok { return NotBegun, replayed, None, asked, first, at, pid; }
      ok := *;
      ok := ok || calm;
      if !ok {
        GiveUp(portal, start, task, Running);
        return NotBegun, replayed, None, asked, first, at, pid;
      }
      ghost var recovered := Now();
      if IsNew(start, entry.request.transaction) {
        GainsNoRow(start, recovered, portal,
                   if portal in start.outbox then RowOf(portal, start.outbox[portal], replayed) else map[], entry.request.transaction);
      }
      LedSelf(recovered);
      outcome, heard, at, pid := StoreAndSend(portal, entry, refused, patience, calm, recovered);
      LedOn(start, recovered, Now());
      if !refused { HeardSince(start, recovered, at, Now(), portal, Handler(task, Sending(pid)), pid, heard); }
      if calm && !Settled(start, portal) {
        HeardOn(start, asked, recovered, Now(), portal, Handler(task, Asking(start.outbox[portal], first)), first, replayed);
      }
    }
  }
}
