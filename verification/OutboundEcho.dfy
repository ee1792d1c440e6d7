/**
 The echo that becomes possible when recovery for an unchanged conversation runs outside the
 portal queue (connector.go:178) while the queue handles a reply in the same room. Whichever of
 the two begins first, the reply can be submitted with no outbox entry and no row left to tell
 that it came from Matrix.
 */
module OutboundEcho {
  import opened Journal
  import opened Outbound
  import opened OutboundSafety

  /**
   Which overlaps a run may have: a recovery outside the queue that begins while a reply is
   handled, and a reply whose handling begins while such a recovery is under way.
   */
  datatype Overlap = Overlap(recoveryDuringReply: bool, replyDuringRecovery: bool)

  predicate Permits(overlap: Overlap, b: Outbound.World, action: Outbound.Action) {
    && (action.BeginDirect? && Replying(b, action.portal) ==> overlap.recoveryDuringReply)
    && (action.Begin? && action.task.Reply? && action.portal in b.direct ==> overlap.replyDuringRecovery)
  }

  predicate Allowed(overlap: Overlap, b: Outbound.World, actions: seq<Outbound.Action>) {
    actions == [] ||
    (var init := actions[..|actions| - 1];
     Allowed(overlap, b, init) && Permits(overlap, Outbound.Run(b, init), actions[|actions| - 1]))
  }

  lemma {:induction false} AllowedIsApart(b: Outbound.World, actions: seq<Outbound.Action>)
    ensures Allowed(Overlap(false, false), b, actions) <==> Apart(b, actions)
  {
    if actions != [] { AllowedIsApart(b, actions[..|actions| - 1]); }
  }

  ghost predicate Reach(overlap: Overlap, b: Outbound.World, c: Outbound.World) {
    exists actions: seq<Outbound.Action> :: Allowed(overlap, b, actions) && Outbound.Run(b, actions) == c
  }

  lemma ReachStep(overlap: Overlap, b: Outbound.World, c: Outbound.World, action: Outbound.Action, d: Outbound.World)
    requires Reach(overlap, b, c) && Permits(overlap, c, action) && Outbound.Next(c, action) == d
    ensures Reach(overlap, b, d)
  {
    var actions: seq<Outbound.Action> :| Allowed(overlap, b, actions) && Outbound.Run(b, actions) == c;
    assert (actions + [action])[..|actions|] == actions;
    assert Allowed(overlap, b, actions + [action]) && Outbound.Run(b, actions + [action]) == d;
  }

  /** A step of a handler, in the queue or outside it. */
  lemma Handles(overlap: Overlap, b: Outbound.World, c: Outbound.World, lane: Lane, p: nat, ok: bool, step: Step) returns (d: Outbound.World)
    requires Reach(overlap, b, c) && p in Handlers(c, lane) && HandlerStep(c, p, Handlers(c, lane)[p], ok) == Some(step)
    ensures Reach(overlap, b, d) && d == Apply(Moved(c, lane, p, step.stage), p, step.change)
  {
    hide HandlerStep, Outbound.Next, Apply, Moved;
    StepEffect(c, lane, p, ok);
    d := Apply(Moved(c, lane, p, step.stage), p, step.change);
    ReachStep(overlap, b, c, if lane.Queued? then Queue(p, ok) else Direct(p, ok), d);
  }

  lemma Acts(overlap: Overlap, b: Outbound.World, c: Outbound.World, pid: nat, move: Move, effect: Journal.Effect) returns (d: Outbound.World)
    requires Reach(overlap, b, c) && pid in c.adapter.procs
    requires Journal.Response(c.adapter, c.adapter.procs[pid], move) == Some(effect)
    ensures Reach(overlap, b, d) && d == c.(adapter := Journal.Perform(c.adapter, pid, effect))
  {
    d := c.(adapter := Journal.Perform(c.adapter, pid, effect));
    ReachStep(overlap, b, c, Adapter(Act(pid, move)), d);
  }

  /** A process goes on without taking or releasing its lock, and without writing its record. */
  lemma Goes(overlap: Overlap, b: Outbound.World, c: Outbound.World, pid: nat, move: Move, phase: Phase) returns (d: Outbound.World)
    requires Reach(overlap, b, c) && pid in c.adapter.procs && Holding(phase) == Holding(c.adapter.procs[pid].phase)
    requires Journal.Response(c.adapter, c.adapter.procs[pid], move) == To(phase)
    ensures Reach(overlap, b, d)
    ensures d == c.(adapter := c.adapter.(procs := c.adapter.procs[pid := Process(c.adapter.procs[pid].request, phase)]))
  {
    d := Acts(overlap, b, c, pid, move, To(phase).value);
  }

  function Empty(): Outbound.World {
    Outbound.World(Journal.World(map[], multiset{}, multiset{}, map[], map[], map[]), map[], map[], map[], map[], [], 0)
  }

  function ItemOf(request: Request, id: nat): Item {
    Item(id, Some(request.transaction), true, request.text)
  }

  // ---------------------------------------------------------------- one adapter process

  /** What a process needs to go through: nothing recorded for its transaction, and the lock free. */
  predicate Clear(w: Journal.World, pid: nat, request: Request) {
    && pid in w.procs && w.procs[pid] == Process(request, Opening)
    && request.transaction !in w.journal && request.transaction.portal !in w.locks
  }

  /** The process takes its lock and gets as far as it does before its record is written. */
  lemma GetsReady(overlap: Overlap, b: Outbound.World, a: Outbound.World, pid: nat, request: Request) returns (c: Outbound.World)
    requires Reach(overlap, b, a) && Clear(a.adapter, pid, request)
    ensures Reach(overlap, b, c)
    ensures c == a.(adapter := a.adapter.(procs := a.adapter.procs[pid := Process(request, Ready)],
                                          locks := a.adapter.locks[request.transaction.portal := pid]))
  {
    c := Goes(overlap, b, a, pid, Look([]), Waiting([]));
    c := Acts(overlap, b, c, pid, Go, To(Locked([])).value);
    c := Goes(overlap, b, c, pid, Go, Ready);
  }

  /** The process reaches its call, and the owner appends its item. */
  lemma Submits(overlap: Overlap, b: Outbound.World, a: Outbound.World, pid: nat, request: Request, id: nat) returns (c: Outbound.World)
    requires Reach(overlap, b, a) && Clear(a.adapter, pid, request) && FreshId(Log(a.adapter, request.transaction.portal), id)
    ensures Reach(overlap, b, c) && c.(adapter := a.adapter) == a
    ensures var t := request.transaction;
      && pid in c.adapter.procs && c.adapter.procs == a.adapter.procs[pid := Process(request, Calling)]
      && c.adapter.journal == a.adapter.journal[t := RecordFor(request, Submitting)]
      && Log(c.adapter, t.portal) == Log(a.adapter, t.portal) + [ItemOf(request, id)]
      && c.adapter.locks == a.adapter.locks[t.portal := pid]
  {
    hide Reach;
    c := GetsReady(overlap, b, a, pid, request);
    c := Calls(overlap, b, c, pid, request, id);
  }

  /** No owner holds the task: the process refuses under its lock and is gone. */
  lemma Declines(overlap: Overlap, b: Outbound.World, a: Outbound.World, pid: nat, request: Request) returns (c: Outbound.World)
    requires Reach(overlap, b, a) && Clear(a.adapter, pid, request)
    ensures Reach(overlap, b, c)
    ensures c == a.(adapter := a.adapter.(procs := a.adapter.procs[pid := Process(request, Done(Unsent))]))
  {
    c := GetsReady(overlap, b, a, pid, request);
    c := Acts(overlap, b, c, pid, Refuse, Exit(Unsent).value);
    assert (a.adapter.locks[request.transaction.portal := pid]) - {request.transaction.portal} == a.adapter.locks;
  }

  lemma Calls(overlap: Overlap, b: Outbound.World, a: Outbound.World, pid: nat, request: Request, id: nat) returns (c: Outbound.World)
    requires Reach(overlap, b, a) && pid in a.adapter.procs && a.adapter.procs[pid] == Process(request, Ready)
    requires FreshId(Log(a.adapter, request.transaction.portal), id)
    ensures Reach(overlap, b, c) && c.(adapter := a.adapter) == a
    ensures var t := request.transaction;
      && c.adapter.procs == a.adapter.procs[pid := Process(request, Calling)]
      && c.adapter.journal == a.adapter.journal[t := RecordFor(request, Submitting)]
      && Log(c.adapter, t.portal) == Log(a.adapter, t.portal) + [ItemOf(request, id)]
      && c.adapter.locks == a.adapter.locks
  {
    hide Reach;
    c := Acts(overlap, b, a, pid, Go, Journal.Effect(Some(Recorded), Some(Submitting), Unchanged));
    c := Acts(overlap, b, c, pid, Go, Journal.Effect(Some(Calling), None, Made));
    c := OwnerActs(overlap, b, c, request, id);
  }

  lemma OwnerActs(overlap: Overlap, b: Outbound.World, a: Outbound.World, request: Request, id: nat) returns (c: Outbound.World)
    requires Reach(overlap, b, a) && request.transaction in a.adapter.pending && FreshId(Log(a.adapter, request.transaction.portal), id)
    ensures Reach(overlap, b, c)
    ensures c == a.(adapter := Append(a.adapter, request.transaction.portal, ItemOf(request, id), multiset{request.transaction}))
  {
    c := a.(adapter := Append(a.adapter, request.transaction.portal, ItemOf(request, id), multiset{request.transaction}));
    ReachStep(overlap, b, a, Adapter(OwnerAppend(request.transaction, id, request.text)), c);
  }

  lemma Recognizes(request: Request, id: nat)
    ensures Recognize([ItemOf(request, id)], request, None) == To(Matched(id))
  {
    var item := ItemOf(request, id);
    assert [item][1..] == [] && Matches([item], request) == [item];
  }

  /** Its call returns, and it finds the item. */
  lemma Accepts(overlap: Overlap, b: Outbound.World, a: Outbound.World, pid: nat, request: Request, id: nat) returns (c: Outbound.World)
    requires Reach(overlap, b, a) && pid in a.adapter.procs && a.adapter.procs[pid] == Process(request, Calling)
    requires ItemOf(request, id) in Log(a.adapter, request.transaction.portal)
    ensures Reach(overlap, b, c) && c.(adapter := a.adapter) == a
    ensures var t := request.transaction;
      && c.adapter.procs == a.adapter.procs[pid := Process(request, Done(Sent(id)))]
      && c.adapter.journal == a.adapter.journal[t := RecordFor(request, Accepted(id))]
      && c.adapter.rollout == a.adapter.rollout && c.adapter.locks == a.adapter.locks - {t.portal}
  {
    var item := ItemOf(request, id);
    c := Goes(overlap, b, a, pid, Go, Polling);
    Recognizes(request, id);
    hide Recognize;
    c := Goes(overlap, b, c, pid, Look([item]), Matched(id));
    c := Acts(overlap, b, c, pid, Go, Journal.Effect(Some(Done(Sent(id))), Some(Accepted(id)), Unchanged));
  }

  // ---------------------------------------------------------------- handlers

  /** A reply's handler with an empty outbox: its entry is stored and its process started. */
  lemma Replies(overlap: Overlap, b: Outbound.World, a: Outbound.World, p: nat, entry: Entry) returns (c: Outbound.World)
    requires Reach(overlap, b, a) && p in a.handlers && a.handlers[p] == Handler(Reply(entry), Running) && a.next !in a.adapter.procs
    ensures Reach(overlap, b, c)
    ensures c == a.(handlers := a.handlers[p := Handler(Reply(entry), Sending(a.next))], outbox := a.outbox[p := entry],
                    adapter := a.adapter.(procs := a.adapter.procs[a.next := Process(entry.request, Opening)]), next := a.next + 1)
  {
    c := Handles(overlap, b, a, Queued, p, true, Step(Some(Prepared), Store(entry)));
    c := Handles(overlap, b, c, Queued, p, true, Step(Some(Sending(a.next)), Start(entry.request)));
  }

  lemma Begins(overlap: Overlap, b: Outbound.World, a: Outbound.World, p: nat, task: Task) returns (c: Outbound.World)
    requires Reach(overlap, b, a) && p !in a.handlers && CanBegin(a, p, task) && (task.Reply? && p in a.direct ==> overlap.replyDuringRecovery)
    ensures Reach(overlap, b, c) && c == a.(handlers := a.handlers[p := Handler(task, Check)])
  {
    c := a.(handlers := a.handlers[p := Handler(task, Check)]);
    ReachStep(overlap, b, a, Begin(p, task), c);
  }

  /** With the entry gone and no row, mirroring the item sends the user's own reply back. */
  lemma Echoes(overlap: Overlap, b: Outbound.World, a: Outbound.World, p: nat, item: Item) returns (c: Outbound.World)
    requires Reach(overlap, b, a) && p !in a.handlers && p !in a.outbox && (p, item.id) !in a.rows && item in Log(a.adapter, p)
    ensures Reach(overlap, b, c) && (p, item) in c.shown
  {
    c := Begins(overlap, b, a, p, Show(item));
    c := Handles(overlap, b, c, Queued, p, true, Step(Some(Running), Keep));
    c := Handles(overlap, b, c, Queued, p, true, Step(None, Display(item, true)));
  }

  // ---------------------------------------------------------------- a recovery begins during a reply

  /** Both have a process for the same request, which has submitted nothing yet. */
  lemma TwoProcesses(overlap: Overlap, entry: Entry, p: nat) returns (c: Outbound.World)
    requires overlap.recoveryDuringReply && entry.request.transaction.portal == p
    ensures Reach(overlap, Empty(), c)
    ensures c.handlers == map[p := Handler(Reply(entry), Sending(0))] && c.outbox == map[p := entry]
    ensures c.adapter.procs == map[0 := Process(entry.request, Opening), 1 := Process(entry.request, Opening)]
    ensures c.adapter.(procs := map[]) == Empty().adapter && c.rows == map[] && c.shown == []
  {
    var b := Empty();
    assert Outbound.Run(b, []) == b && Allowed(overlap, b, []);
    c := Begins(overlap, b, b, p, Reply(entry));
    c := Handles(overlap, b, c, Queued, p, true, Step(Some(Running), Keep));
    c := Replies(overlap, b, c, p, entry);
    c := Second(overlap, b, c, entry, p);
  }

  lemma Second(overlap: Overlap, b: Outbound.World, a: Outbound.World, entry: Entry, p: nat) returns (c: Outbound.World)
    requires overlap.recoveryDuringReply && Reach(overlap, b, a) && p in a.outbox && a.outbox[p] == entry && a.direct == map[] && a.rows == map[]
    requires a.next == 1 && 1 !in a.adapter.procs
    ensures Reach(overlap, b, c) && c.adapter == a.adapter.(procs := a.adapter.procs[1 := Process(entry.request, Opening)])
    ensures c.handlers == a.handlers && c.outbox == a.outbox && c.rows == a.rows && c.shown == a.shown
  {
    c := a.(direct := a.direct[p := Handler(Settle, Check)]);
    ReachStep(overlap, b, a, BeginDirect(p), c);
    c := Handles(overlap, b, c, Beside, p, true, Step(Some(Asking(entry, 1)), Start(entry.request)));
  }

  /** The first process finds no owner, so its handler deletes the outbox entry. */
  lemma Withdraws(overlap: Overlap, entry: Entry, p: nat) returns (c: Outbound.World)
    requires overlap.recoveryDuringReply && entry.request.transaction.portal == p
    ensures Reach(overlap, Empty(), c) && c.handlers == map[] && c.outbox == map[] && c.rows == map[]
    ensures c.adapter == Empty().adapter.(procs := map[1 := Process(entry.request, Opening)])
  {
    hide Reach;
    var b := Empty();
    c := TwoProcesses(overlap, entry, p);
    c := Declines(overlap, b, c, 0, entry.request);
    ReapEffect(c.adapter, 0);
    hide Journal.Next;
    c := Handles(overlap, b, c, Queued, p, true, Step(Some(Rejecting), Reap(0)));
    c := Handles(overlap, b, c, Queued, p, true, Step(None, Delete));
  }

  /** Then the owner is back, and the second process submits. */
  lemma EchoOutsideTheQueue(overlap: Overlap, entry: Entry) returns (c: Outbound.World)
    requires overlap.recoveryDuringReply
    ensures Reach(overlap, Empty(), c) && (entry.request.transaction.portal, ItemOf(entry.request, 7)) in c.shown
  {
    hide Reach;
    var b, p := Empty(), entry.request.transaction.portal;
    c := Withdraws(overlap, entry, p);
    c := Submits(overlap, b, c, 1, entry.request, 7);
    c := Echoes(overlap, b, c, p, ItemOf(entry.request, 7));
  }

  // ---------------------------------------------------------------- a reply begins during a recovery

  /** Another of the room's Matrix events. */
  function Earlier(entry: Entry): Entry {
    var t := entry.request.transaction;
    Entry(Request(Transaction(t.portal, t.event + 1), entry.request.account, entry.request.text), true)
  }

  /** An earlier reply was accepted and has its row, but its outbox entry could not be deleted. */
  lemma LeftOver(overlap: Overlap, first: Entry, p: nat) returns (c: Outbound.World)
    requires first.request.transaction.portal == p
    ensures Reach(overlap, Empty(), c)
    ensures c.handlers == map[] && c.direct == map[] && c.outbox == map[p := first] && c.shown == [] && c.next == 1
    ensures c.rows == map[(p, 7) := FromMatrix(first.request.transaction, first.request.text)]
    ensures c.adapter.procs == map[] && c.adapter.locks == map[] && c.adapter.journal.Keys == {first.request.transaction}
    ensures Log(c.adapter, p) == [ItemOf(first.request, 7)]
  {
    var b := Empty();
    assert Outbound.Run(b, []) == b && Allowed(overlap, b, []);
    c := Begins(overlap, b, b, p, Reply(first));
    c := Handles(overlap, b, c, Queued, p, true, Step(Some(Running), Keep));
    c := Replies(overlap, b, c, p, first);
    c := Submits(overlap, b, c, 0, first.request, 7);
    assert Log(c.adapter, p) == [ItemOf(first.request, 7)];
    c := Accepts(overlap, b, c, 0, first.request, 7);
    c := Associates(overlap, b, c, p, first);
  }

  lemma Associates(overlap: Overlap, b: Outbound.World, a: Outbound.World, p: nat, first: Entry) returns (c: Outbound.World)
    requires Reach(overlap, b, a) && a.handlers == map[p := Handler(Reply(first), Sending(0))] && a.rows == map[]
    requires a.adapter.procs == map[0 := Process(first.request, Done(Sent(7)))]
    ensures Reach(overlap, b, c) && c.handlers == map[] && c.rows == map[(p, 7) := FromMatrix(first.request.transaction, first.request.text)]
    ensures c.direct == a.direct && c.outbox == a.outbox && c.shown == a.shown && c.next == a.next
    ensures c.adapter == a.adapter.(procs := map[])
  {
    c := Collects(overlap, b, a, p, first);
    c := Handles(overlap, b, c, Queued, p, true, Step(Some(Clearing), Insert(7, first.request.transaction, first.request.text)));
    c := Handles(overlap, b, c, Queued, p, false, Step(None, Keep));
  }

  lemma Collects(overlap: Overlap, b: Outbound.World, a: Outbound.World, p: nat, first: Entry) returns (c: Outbound.World)
    requires Reach(overlap, b, a) && a.handlers == map[p := Handler(Reply(first), Sending(0))]
    requires a.adapter.procs == map[0 := Process(first.request, Done(Sent(7)))]
    ensures Reach(overlap, b, c)
    ensures c == a.(handlers := map[p := Handler(Reply(first), Storing(7))], adapter := a.adapter.(procs := map[]))
  {
    HearsSent(a, p, first);
    ReapIs(a, p, first);
    hide Reach, HandlerStep, Apply, Moved;
    c := Handles(overlap, b, a, Queued, p, true, Step(Some(Storing(7)), Reap(0)));
  }

  lemma ReapIs(a: Outbound.World, p: nat, first: Entry)
    requires a.handlers == map[p := Handler(Reply(first), Sending(0))]
    requires a.adapter.procs == map[0 := Process(first.request, Done(Sent(7)))]
    ensures Apply(Moved(a, Queued, p, Some(Storing(7))), p, Reap(0)) ==
      a.(handlers := map[p := Handler(Reply(first), Storing(7))], adapter := a.adapter.(procs := map[]))
  {
    ReapEffect(a.adapter, 0);
    hide Journal.Next;
    assert a.adapter.procs - {0} == map[];
  }

  lemma HearsSent(a: Outbound.World, p: nat, first: Entry)
    requires a.adapter.procs == map[0 := Process(first.request, Done(Sent(7)))]
    ensures HandlerStep(a, p, Handler(Reply(first), Sending(0)), true) == Some(Step(Some(Storing(7)), Reap(0)))
  {
  }

  /** A recovery outside the queue finds that the entry's event has its row. */
  lemma FindsTheRow(overlap: Overlap, first: Entry, p: nat) returns (c: Outbound.World)
    requires first.request.transaction.portal == p
    ensures Reach(overlap, Empty(), c)
    ensures c.handlers == map[] && c.direct == map[p := Handler(Settle, Settling(first))]
    ensures c.outbox == map[p := first] && c.shown == [] && c.next == 1
    ensures c.rows == map[(p, 7) := FromMatrix(first.request.transaction, first.request.text)] && HasRow(c.rows, first.request.transaction)
    ensures c.adapter.procs == map[] && c.adapter.locks == map[] && c.adapter.journal.Keys == {first.request.transaction}
    ensures Log(c.adapter, p) == [ItemOf(first.request, 7)]
  {
    hide Reach;
    var b := Empty();
    var a := LeftOver(overlap, first, p);
    assert a.rows[(p, 7)].FromMatrix? && HasRow(a.rows, first.request.transaction);
    c := a.(direct := a.direct[p := Handler(Settle, Check)]);
    ReachStep(overlap, b, a, BeginDirect(p), c);
    c := Handles(overlap, b, c, Beside, p, true, Step(Some(Settling(first)), Keep));
  }

  /** It is about to delete that entry when the queue takes up the reply. */
  lemma AboutToDelete(overlap: Overlap, first: Entry, entry: Entry, p: nat) returns (c: Outbound.World)
    requires overlap.replyDuringRecovery
    requires first.request.transaction.portal == p && entry.request.transaction.portal == p
    ensures Reach(overlap, Empty(), c)
    ensures c.handlers == map[p := Handler(Reply(entry), Running)] && c.direct == map[p := Handler(Settle, Settling(first))]
    ensures c.outbox == map[] && c.shown == [] && c.next == 1
    ensures c.rows == map[(p, 7) := FromMatrix(first.request.transaction, first.request.text)]
    ensures c.adapter.procs == map[] && c.adapter.locks == map[] && c.adapter.journal.Keys == {first.request.transaction}
    ensures Log(c.adapter, p) == [ItemOf(first.request, 7)]
  {
    hide Reach, HasRow;
    var b := Empty();
    c := FindsTheRow(overlap, first, p);
    c := Begins(overlap, b, c, p, Reply(entry));
    c := Handles(overlap, b, c, Queued, p, true, Step(Some(Settling(first)), Keep));
    c := Handles(overlap, b, c, Queued, p, true, Step(Some(Running), Delete));
  }

  /** It deletes the reply's own entry instead, and the reply, already submitted, is left without one. */
  lemma EchoBesideTheQueue(overlap: Overlap, entry: Entry) returns (c: Outbound.World)
    requires overlap.replyDuringRecovery
    ensures Reach(overlap, Empty(), c) && (entry.request.transaction.portal, ItemOf(entry.request, 8)) in c.shown
  {
    var b, p := Empty(), entry.request.transaction.portal;
    var first := Earlier(entry);
    c := AboutToDelete(overlap, first, entry, p);
    c := Replies(overlap, b, c, p, entry);
    c := Handles(overlap, b, c, Beside, p, true, Step(Some(Running), Delete));
    c := Submits(overlap, b, c, 1, entry.request, 8);
    c := Handles(overlap, b, c, Queued, p, false, Step(None, Keep));
    c := Echoes(overlap, b, c, p, ItemOf(entry.request, 8));
  }

  // ---------------------------------------------------------------- exactly

  ghost predicate NeverEchoes(overlap: Overlap) {
    forall b: Outbound.World, actions: seq<Outbound.Action> ::
      OutboundSafety.Fresh(b) && Allowed(overlap, b, actions) ==>
        forall s :: s in Outbound.Run(b, actions).shown ==> s.1.client.None?
  }

  lemma ReachedEchoes(overlap: Overlap, c: Outbound.World, p: nat, item: Item)
    requires Reach(overlap, Empty(), c) && (p, item) in c.shown && item.client.Some?
    ensures !NeverEchoes(overlap)
  {
    var actions: seq<Outbound.Action> :| Allowed(overlap, Empty(), actions) && Outbound.Run(Empty(), actions) == c;
    assert OutboundSafety.Fresh(Empty()) && (p, item) in Outbound.Run(Empty(), actions).shown && (p, item).1.client.Some?;
  }

  /**
   All runs are free of echoes exactly when neither overlap is allowed: not a recovery outside
   the queue beginning while a reply of its room is handled, nor a reply whose handling begins
   while such a recovery is under way.
   */
  lemma EchoFreeExactlyWhenApart(overlap: Overlap)
    ensures NeverEchoes(overlap) <==> !overlap.recoveryDuringReply && !overlap.replyDuringRecovery
  {
    var entry := Entry(Request(Transaction(0, 0), 0, "hi"), true);
    if overlap.recoveryDuringReply {
      var c := EchoOutsideTheQueue(overlap, entry);
      ReachedEchoes(overlap, c, 0, ItemOf(entry.request, 7));
    } else if overlap.replyDuringRecovery {
      var c := EchoBesideTheQueue(overlap, entry);
      ReachedEchoes(overlap, c, 0, ItemOf(entry.request, 8));
    } else {
      forall b: Outbound.World, actions: seq<Outbound.Action> | OutboundSafety.Fresh(b) && Allowed(overlap, b, actions)
        ensures forall s :: s in Outbound.Run(b, actions).shown ==> s.1.client.None?
      {
        AllowedIsApart(b, actions);
        OutboundSafety.NoEcho(b, actions);
      }
    }
  }
}
