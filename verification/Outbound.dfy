/**
 The bridge's outbound protocol (pkg/connector/outbound.go) on top of the adapter machine:
 the durable outbox (one entry per portal), the durable message rows, and the handlers that
 read and write them one store operation at a time. A restart forgets every handler in
 flight and keeps the stores; adapter processes outlive the bridge.
 */
module Outbound {
  import opened Journal

  /** An outbox row. keepsClientTxn: the Matrix client's transaction was saved with it. */
  datatype Entry = Entry(request: Request, keepsClientTxn: bool)

  /** A message row: the association of a Matrix event made here, or a mirrored message. */
  datatype Row = FromMatrix(transaction: Transaction, text: string) | Mirrored

  datatype Task =
    | Reply(entry: Entry)   // HandleMatrixMessage
    | Show(item: Item)      // a source message event: PreHandle, then the framework's upsert
    | Settle                // recovery for an unchanged conversation

  datatype Stage =
    | Check                                // recoverOutbound reads the outbox
    | Asking(out: Entry, pid: nat)         // recovery replays the saved request
    | Keeping(out: Entry, message: nat)    // recovery inserts the association
    | Settling(out: Entry)                 // finishRecovery
    | Running                              // recovery succeeded: the outbox is empty
    | Prepared                             // the new outbox row is stored
    | Sending(pid: nat)
    | Rejecting                            // explicit not_sent: delete the outbox row
    | Storing(message: nat)                // the framework inserts the row
    | Clearing                             // PostSave deletes the outbox row

  datatype Handler = Handler(task: Task, stage: Stage)

  datatype World = World(
    adapter: Journal.World,
    outbox: map<nat, Entry>,
    rows: map<(nat, nat), Row>,
    handlers: map<nat, Handler>,   // the serialized portal queue: one handler per portal
    direct: map<nat, Handler>,     // recovery called outside the queue (connector.go:178)
    shown: seq<(nat, Item)>,       // original events sent to Matrix for rollout items
    next: nat)                     // the next adapter process id

  datatype Change =
    | Keep
    | Store(entry: Entry)
    | Delete
    | Insert(message: nat, transaction: Transaction, text: string)
    | Display(item: Item, committed: bool)
    | Start(request: Request)
    | Reap(pid: nat)

  /** The stage a handler moves to (None: it returns) and its one store or process operation. */
  datatype Step = Step(stage: Option<Stage>, change: Change)

  datatype Action =
    | Adapter(step: Journal.Action)
    | Begin(portal: nat, task: Task)
    | BeginDirect(portal: nat)
    | Queue(portal: nat, ok: bool)    // the portal's handler takes a step; ok: no store failure
    | Direct(portal: nat, ok: bool)
    | Restart

  predicate HasRow(rows: map<(nat, nat), Row>, t: Transaction) {
    exists key :: key in rows && rows[key].FromMatrix? && rows[key].transaction == t
  }

  function Return(change: Change): Option<Step> { Some(Step(None, change)) }
  function GoTo(stage: Stage, change: Change): Option<Step> { Some(Step(Some(stage), change)) }

  /** The reply of a finished adapter process. */
  function ReplyOf(adapter: Journal.World, pid: nat): Option<Journal.Reply> {
    if pid in adapter.procs && adapter.procs[pid].phase.Done? then Some(adapter.procs[pid].phase.reply) else None
  }

  function Recovering(b: World, portal: nat, stage: Stage, ok: bool): Option<Step>
    requires stage.Check? || stage.Asking? || stage.Keeping? || stage.Settling?
  {
    match stage
    case Check =>
      if !ok then Return(Keep)
      else if portal !in b.outbox then GoTo(Running, Keep)
      else
        var out := b.outbox[portal];
        if HasRow(b.rows, out.request.transaction) then GoTo(Settling(out), Keep)
        else GoTo(Asking(out, b.next), Start(out.request))
    case Asking(out, pid) =>
      if !ok then Return(Keep)
      else (match ReplyOf(b.adapter, pid)
        case None => None
        case Some(Sent(message)) => GoTo(Keeping(out, message), Reap(pid))
        case Some(_) => Return(Reap(pid)))
    case Keeping(out, message) =>
      if !ok || (portal, message) in b.rows then Return(Keep)
      else GoTo(Settling(out), Insert(message, out.request.transaction, out.request.text))
    case Settling(_) => if ok then GoTo(Running, Delete) else Return(Keep)
  }

  /** The task itself, once recovery has left the outbox empty. */
  function RunTask(b: World, portal: nat, task: Task, ok: bool): Option<Step> {
    match task
    case Settle => Return(Keep)
    case Reply(entry) => if ok then GoTo(Prepared, Store(entry)) else Return(Keep)
    case Show(item) => if (portal, item.id) in b.rows then Return(Keep) else Return(Display(item, ok))
  }

  function Submit(b: World, portal: nat, entry: Entry, stage: Stage, ok: bool): Option<Step>
    requires stage.Prepared? || stage.Sending? || stage.Rejecting? || stage.Storing? || stage.Clearing?
  {
    match stage
    case Prepared => if ok then GoTo(Sending(b.next), Start(entry.request)) else GoTo(Rejecting, Keep)
    case Sending(pid) =>
      if !ok then Return(Keep)
      else (match ReplyOf(b.adapter, pid)
        case None => None
        case Some(Sent(message)) => GoTo(Storing(message), Reap(pid))
        case Some(Unsent) => GoTo(Rejecting, Reap(pid))
        case Some(Uncertain) => Return(Reap(pid)))
    case Rejecting => Return(if ok then Delete else Keep)
    case Storing(message) =>
      if !ok || (portal, message) in b.rows then Return(Keep)
      else GoTo(Clearing, Insert(message, entry.request.transaction, entry.request.text))
    case Clearing => Return(if ok then Delete else Keep)
  }

  function HandlerStep(b: World, portal: nat, handler: Handler, ok: bool): Option<Step> {
    var Handler(task, stage) := handler;
    if stage.Check? || stage.Asking? || stage.Keeping? || stage.Settling? then Recovering(b, portal, stage, ok)
    else if stage.Running? then RunTask(b, portal, task, ok)
    else if task.Reply? then Submit(b, portal, task.entry, stage, ok)
    else None
  }

  function Apply(b: World, portal: nat, change: Change): World {
    match change
    case Keep => b
    case Store(entry) => b.(outbox := b.outbox[portal := entry])
    case Delete => b.(outbox := b.outbox - {portal})
    case Insert(message, t, text) => b.(rows := b.rows[(portal, message) := FromMatrix(t, text)])
    case Display(item, committed) =>
      b.(shown := b.shown + [(portal, item)],
         rows := if committed then b.rows[(portal, item.id) := Mirrored] else b.rows)
    case Start(request) =>
      b.(adapter := Journal.Next(b.adapter, Spawn(b.next, request)), next := b.next + 1)
    case Reap(pid) => b.(adapter := Journal.Next(b.adapter, Act(pid, Die)))
  }

  function Advance(handlers: map<nat, Handler>, portal: nat, stage: Option<Stage>): map<nat, Handler>
    requires portal in handlers
  {
    if stage.Some? then handlers[portal := Handler(handlers[portal].task, stage.value)] else handlers - {portal}
  }

  predicate CanBegin(b: World, portal: nat, task: Task) {
    && (task.Reply? ==> task.entry.request.transaction.portal == portal)
    && (task.Show? ==> task.item in Log(b.adapter, portal))
  }

  function Next(b: World, action: Action): World {
    match action
    case Adapter(step) => if step.Spawn? then b else b.(adapter := Journal.Next(b.adapter, step))
    case Begin(portal, task) =>
      if portal !in b.handlers && CanBegin(b, portal, task)
      then b.(handlers := b.handlers[portal := Handler(task, Check)])
      else b
    case BeginDirect(portal) =>
      if portal in b.direct then b else b.(direct := b.direct[portal := Handler(Settle, Check)])
    case Queue(portal, ok) =>
      if portal !in b.handlers then b
      else (match HandlerStep(b, portal, b.handlers[portal], ok)
        case None => b
        case Some(Step(stage, change)) =>
          Apply(b.(handlers := Advance(b.handlers, portal, stage)), portal, change))
    case Direct(portal, ok) =>
      if portal !in b.direct then b
      else (match HandlerStep(b, portal, b.direct[portal], ok)
        case None => b
        case Some(Step(stage, change)) =>
          Apply(b.(direct := Advance(b.direct, portal, stage)), portal, change))
    case Restart => b.(handlers := map[], direct := map[])
  }

  function Run(b: World, actions: seq<Action>): World {
    if actions == [] then b else Next(Run(b, actions[..|actions| - 1]), actions[|actions| - 1])
  }

  /** The assumption outbound.go:24 states: recovery happens only inside the portal queue. */
  predicate Serialized(actions: seq<Action>) {
    forall a :: a in actions ==> !a.BeginDirect?
  }

  /** The portal's queue is handling one of its Matrix messages. */
  predicate Replying(b: World, portal: nat) {
    portal in b.handlers && b.handlers[portal].task.Reply?
  }

  /** The action makes a recovery outside the queue and a reply's handler overlap in one portal. */
  predicate Overlaps(b: World, action: Action) {
    || (action.BeginDirect? && Replying(b, action.portal))
    || (action.Begin? && action.task.Reply? && action.portal in b.direct)
  }

  /**
   Recovery outside the queue never overlaps a reply's handler in its own portal; it may overlap
   the mirroring of a source message, another recovery, and anything in other portals.
   */
  predicate Apart(b: World, actions: seq<Action>) {
    actions == [] ||
    (var init := actions[..|actions| - 1]; Apart(b, init) && !Overlaps(Run(b, init), actions[|actions| - 1]))
  }

  // ---------------------------------------------------------------- invariant

  /** No process works for the transaction. */
  predicate Unserved(a: Journal.World, t: Transaction) {
    forall pid :: pid in a.procs ==> a.procs[pid].request.transaction != t
  }

  /** Nothing of the transaction is under way anywhere: it was never sent, or was rejected. */
  predicate Quiet(a: Journal.World, t: Transaction) {
    Idle(a, t) && Unserved(a, t)
  }

  /** A first send: the only process is this one, and it has submitted nothing if it says so. */
  predicate SoleServer(a: Journal.World, t: Transaction, pid: nat) {
    && (forall q :: q in a.procs && a.procs[q].request.transaction == t ==> q == pid)
    && (pid in a.procs && Unsubmitted(a.procs[pid].phase) ==> Idle(a, t))
  }

  predicate Unsubmitted(phase: Phase) {
    phase.Opening? || phase.Waiting? || phase.Locked? || phase.Ready? || phase == Done(Unsent)
  }

  predicate Pending(b: World, t: Transaction) {
    t.portal in b.outbox && b.outbox[t.portal].request.transaction == t
  }

  predicate IsAccepted(a: Journal.World, request: Request, message: nat) {
    request.transaction in a.journal && a.journal[request.transaction] == RecordFor(request, Accepted(message))
  }

  predicate Serves(b: World, pid: nat, request: Request) {
    pid < b.next && (pid in b.adapter.procs ==> b.adapter.procs[pid].request == request)
  }

  /** The entry a recovery has read is still the portal's, or its event has a row by now. */
  predicate Held(b: World, portal: nat, out: Entry) {
    && out.request.transaction.portal == portal
    && (portal in b.outbox ==> b.outbox[portal] == out)
    && (portal in b.outbox || HasRow(b.rows, out.request.transaction))
  }

  predicate StageOk(b: World, portal: nat, handler: Handler) {
    var Handler(task, stage) := handler;
    && (task.Reply? ==> task.entry.request.transaction.portal == portal)
    && (task.Show? ==> task.item in Log(b.adapter, portal))
    && (stage.Asking? || stage.Keeping? || stage.Settling? ==> Held(b, portal, stage.out))
    && (stage.Asking? ==> Serves(b, stage.pid, stage.out.request))
    && (stage.Keeping? ==> IsAccepted(b.adapter, stage.out.request, stage.message))
    && (stage.Settling? ==> HasRow(b.rows, stage.out.request.transaction))
    && (stage.Running? ==> portal !in b.outbox)
    && (stage.Prepared? || stage.Sending? || stage.Rejecting? || stage.Storing? || stage.Clearing? ==>
          task.Reply? && portal in b.outbox && b.outbox[portal] == task.entry && SubmitOk(b, task.entry.request, stage))
  }

  predicate SubmitOk(b: World, request: Request, stage: Stage) {
    var t := request.transaction;
    && (stage.Prepared? || stage.Rejecting? ==> HasRow(b.rows, t) || Quiet(b.adapter, t))
    && (stage.Sending? ==> Serves(b, stage.pid, request) && (HasRow(b.rows, t) || SoleServer(b.adapter, t, stage.pid)))
    && (stage.Storing? ==> IsAccepted(b.adapter, request, stage.message))
    && (stage.Clearing? ==> HasRow(b.rows, t))
  }

  predicate RowOk(b: World, key: (nat, nat))
    requires key in b.rows
  {
    match b.rows[key]
    case Mirrored => exists x :: x in Log(b.adapter, key.0) && x.id == key.1 && x.client.None?
    case FromMatrix(t, text) =>
      && t.portal == key.0 && t in b.adapter.journal
      && b.adapter.journal[t].text == text && b.adapter.journal[t].status == Accepted(key.1)
  }

  /** Every handler stands where it may; one outside the queue recovers, with no reply beside it. */
  predicate Stages(b: World) {
    && (forall p :: p in b.handlers ==> StageOk(b, p, b.handlers[p]))
    && (forall p :: p in b.direct ==> b.direct[p].task.Settle? && StageOk(b, p, b.direct[p]) && !Replying(b, p))
  }

  ghost predicate Inv(b: World) {
    && Journal.Inv(b.adapter)
    && (forall pid :: pid in b.adapter.procs ==> pid < b.next)
    && (forall p :: p in b.outbox ==> b.outbox[p].request.transaction.portal == p)
    && (forall key :: key in b.rows ==> RowOk(b, key))
    && (forall t: Transaction :: Pending(b, t) || HasRow(b.rows, t) || Quiet(b.adapter, t))
    && Stages(b)
    && (forall s :: s in b.shown ==> s.1.client.None?)
  }
}
