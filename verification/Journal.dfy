/**
 The local-task adapter (scripts/codex_source.py, send and send_locked) as a state
 machine. Several adapter processes compete for one journal, one lock per task and one
 append-only rollout written by the task owner. Any process may die between two steps.

 A transaction is the tuple its identifier hashes, so it determines its conversation
 (here: the portal number), and the client id sent to the owner is the transaction
 itself. Text digests are the text.
 */
module Journal {

  datatype Option<+T> = None | Some(value: T)

  datatype Transaction = Transaction(portal: nat, event: nat)

  datatype Request = Request(transaction: Transaction, account: nat, text: string)

  /** One visible rollout message; client is the transaction whose client id it carries. */
  datatype Item = Item(id: nat, client: Option<Transaction>, user: bool, text: string)

  datatype Status = Submitting | Accepted(message: nat) | NotSent

  /** A journal file: the identity fields of send_locked and the submission status. */
  datatype Record = Record(account: nat, text: string, status: Status)

  datatype Reply = Sent(message: nat) | Unsent | Uncertain

  /** Where an adapter process stands. From Locked to Matched it holds its task's lock. */
  datatype Phase =
    | Opening                     // reading the catalog row and the rollout, no lock yet
    | Waiting(seen: seq<Item>)    // has read the rollout, wants the lock
    | Locked(seen: seq<Item>)     // about to read the journal
    | Ready                       // no record, or one that says not_sent
    | Recorded                    // the submitting record is durable
    | Calling                     // the owner has been called
    | Refused                     // the owner explicitly rejected the call
    | Polling                     // the call returned; looking for the item
    | Matched(message: nat)       // found the item; about to record acceptance
    | Done(reply: Reply)

  datatype Process = Process(request: Request, phase: Phase)

  datatype World = World(
    rollout: map<nat, seq<Item>>,         // per task: the append-only log
    pending: multiset<Transaction>,       // calls the owner may still act on
    unrejected: multiset<Transaction>,    // calls made, less those explicitly rejected
    journal: map<Transaction, Record>,
    locks: map<nat, nat>,                 // task -> process
    procs: map<nat, Process>)

  /** What a process does next; each phase admits only some of these. */
  datatype Move =
    | Look(seen: seq<Item>)   // read_thread returned these messages
    | Go                      // the ordinary next step
    | Refuse                  // an explicit not_sent exit, or the owner's explicit rejection
    | Fail                    // any exception: reported as uncertain
    | Die                     // the process disappears

  datatype Action =
    | Spawn(pid: nat, request: Request)   // another adapter process starts
    | Act(pid: nat, move: Move)
    | OwnerAppend(transaction: Transaction, id: nat, text: string)
    | OwnerDrop(transaction: Transaction)
    | OtherAppend(portal: nat, item: Item)

  function Log(w: World, portal: nat): seq<Item> {
    if portal in w.rollout then w.rollout[portal] else []
  }

  predicate Holding(phase: Phase) {
    phase.Locked? || phase.Ready? || phase.Recorded? || phase.Calling? || phase.Refused?
    || phase.Polling? || phase.Matched?
  }

  function RecordFor(request: Request, status: Status): Record {
    Record(request.account, request.text, status)
  }

  predicate IsMatch(item: Item, request: Request) {
    item.client == Some(request.transaction) && item.user && item.text == request.text
  }

  /** The rollout messages that carry the request's client id and text. */
  function Matches(items: seq<Item>, request: Request): seq<Item> {
    if items == [] then []
    else (if IsMatch(items[0], request) then [items[0]] else []) + Matches(items[1..], request)
  }

  /**
   The effect of one process step: the phase reached (None when the process disappears),
   the status it writes to its own journal file, and what happens to its call.
   */
  datatype Effect = Effect(phase: Option<Phase>, record: Option<Status>, call: Call)
  datatype Call = Unchanged | Made | Rejected

  function To(phase: Phase): Option<Effect> { Some(Effect(Some(phase), None, Unchanged)) }

  function Exit(reply: Reply): Option<Effect> { To(Done(reply)) }

  /** The journal check at the top of send_locked. */
  function Examine(journal: map<Transaction, Record>, request: Request, seen: seq<Item>): Option<Effect> {
    if request.transaction !in journal then To(Ready)
    else
      var record := journal[request.transaction];
      if record != RecordFor(request, record.status) then Exit(Uncertain)
      else match record.status {
        case NotSent => To(Ready)
        case Accepted(message) => Exit(Sent(message))
        case Submitting => Recognize(seen, request, Exit(Uncertain))
      }
  }

  /** Exactly one match is acceptance; anything else is not. */
  function Recognize(seen: seq<Item>, request: Request, otherwise: Option<Effect>): Option<Effect> {
    var matches := Matches(seen, request);
    if |matches| == 1 then To(Matched(matches[0].id)) else otherwise
  }

  /** What a process in its present phase does on a move; None when the move is not open to it. */
  function Response(w: World, process: Process, move: Move): Option<Effect> {
    var Process(request, phase) := process;
    var t := request.transaction;
    match (move, phase)
    case (Look(seen), Opening) =>
      if forall x :: x in seen ==> x in Log(w, t.portal) then To(Waiting(seen)) else None
    case (Look(seen), Polling) =>
      if forall x :: x in seen ==> x in Log(w, t.portal) then Recognize(seen, request, None) else None
    case (Go, Waiting(seen)) => if t.portal in w.locks then None else To(Locked(seen))
    case (Go, Locked(seen)) => Examine(w.journal, request, seen)
    case (Go, Ready) => Some(Effect(Some(Recorded), Some(Submitting), Unchanged))
    case (Go, Recorded) => Some(Effect(Some(Calling), None, Made))
    case (Go, Calling) => To(Polling)
    case (Go, Refused) => Some(Effect(Some(Done(Unsent)), Some(NotSent), Unchanged))
    case (Go, Matched(message)) => Some(Effect(Some(Done(Sent(message))), Some(Accepted(message)), Unchanged))
    case (Refuse, Opening) => Exit(Unsent)   // oversized rollout, before the journal is read
    case (Refuse, Ready) => Exit(Unsent)     // archived, oversized or ownerless task
    case (Refuse, Calling) => if t in w.pending then Some(Effect(Some(Refused), None, Rejected)) else None
    case (Fail, Done(_)) => None
    case (Fail, _) => Exit(Uncertain)
    case (Die, _) => Some(Effect(None, None, Unchanged))
    case (_, _) => None
  }

  /** The task lock follows the phase: taken on entering send_locked, released on leaving it. */
  function Relock(locks: map<nat, nat>, pid: nat, process: Process, phase: Option<Phase>): map<nat, nat> {
    var after := phase.Some? && Holding(phase.value);
    if after && !Holding(process.phase) then locks[process.request.transaction.portal := pid]
    else if !after && Holding(process.phase) then locks - {process.request.transaction.portal}
    else locks
  }

  function Perform(w: World, pid: nat, effect: Effect): World
    requires pid in w.procs
  {
    var process := w.procs[pid];
    var t := process.request.transaction;
    World(
      w.rollout,
      (match effect.call case Unchanged => w.pending case Made => w.pending + multiset{t} case Rejected => w.pending - multiset{t}),
      (match effect.call case Unchanged => w.unrejected case Made => w.unrejected + multiset{t} case Rejected => w.unrejected - multiset{t}),
      if effect.record.Some? then w.journal[t := RecordFor(process.request, effect.record.value)] else w.journal,
      Relock(w.locks, pid, process, effect.phase),
      if effect.phase.Some? then w.procs[pid := Process(process.request, effect.phase.value)] else w.procs - {pid})
  }

  function Next(w: World, action: Action): World {
    match action
    case Spawn(pid, request) =>
      if pid in w.procs then w else w.(procs := w.procs[pid := Process(request, Opening)])
    case Act(pid, move) =>
      if pid !in w.procs then w
      else
        var effect := Response(w, w.procs[pid], move);
        if effect.Some? then Perform(w, pid, effect.value) else w
    case OwnerAppend(t, id, text) =>
      if t in w.pending && FreshId(Log(w, t.portal), id)
      then Append(w, t.portal, Item(id, Some(t), true, text), multiset{t})
      else w
    case OwnerDrop(t) => w.(pending := w.pending - multiset{t})
    case OtherAppend(portal, item) =>
      if item.client.None? && FreshId(Log(w, portal), item.id) then Append(w, portal, item, multiset{}) else w
  }

  predicate FreshId(items: seq<Item>, id: nat) {
    forall x :: x in items ==> x.id != id
  }

  /** The owner appends one item, using up the calls it answers. */
  function Append(w: World, portal: nat, item: Item, spent: multiset<Transaction>): World {
    w.(pending := w.pending - spent, rollout := w.rollout[portal := Log(w, portal) + [item]])
  }

  function Run(w: World, actions: seq<Action>): World {
    if actions == [] then w else Next(Run(w, actions[..|actions| - 1]), actions[|actions| - 1])
  }

  /** How many rollout items carry the transaction's client id. */
  function Count(items: seq<Item>, t: Transaction): nat {
    if items == [] then 0
    else Count(items[..|items| - 1], t) + (if items[|items| - 1].client == Some(t) then 1 else 0)
  }

  // ---------------------------------------------------------------- invariant

  /** Nothing recorded, or the last attempt was explicitly rejected. */
  predicate Idle(w: World, t: Transaction) {
    t !in w.journal || w.journal[t].status.NotSent?
  }

  /** The rollout holds the request's item under this id. */
  predicate Holds(items: seq<Item>, t: Transaction, text: string, message: nat) {
    Item(message, Some(t), true, text) in items
  }

  predicate AtMostOneCall(w: World, t: Transaction) {
    w.pending[t] + Count(Log(w, t.portal), t) <= w.unrejected[t] <= 1
  }

  predicate RecordOk(w: World, t: Transaction) {
    && (Idle(w, t) ==> w.unrejected[t] == 0)
    && (!Idle(w, t) && w.journal[t].status.Accepted? ==>
          Holds(Log(w, t.portal), t, w.journal[t].text, w.journal[t].status.message))
  }

  predicate Attempting(w: World, request: Request) {
    request.transaction in w.journal && w.journal[request.transaction] == RecordFor(request, Submitting)
  }

  /** What a process in this phase knows about its own transaction. */
  predicate PhaseOk(w: World, request: Request, phase: Phase) {
    var t := request.transaction;
    && (phase.Waiting? || phase.Locked? ==> forall x :: x in phase.seen ==> x in Log(w, t.portal))
    && (phase.Ready? ==> Idle(w, t))
    && (phase.Recorded? || phase.Calling? || phase.Refused? || phase.Polling? || phase.Matched? ==> Attempting(w, request))
    && (phase.Recorded? || phase.Refused? ==> w.unrejected[t] == 0)
    && (phase.Calling? || phase.Polling? ==> w.unrejected[t] == 1)
    && (phase.Matched? ==> Holds(Log(w, t.portal), t, request.text, phase.message))
    && (phase.Done? && phase.reply.Sent? ==>
          t in w.journal && w.journal[t] == RecordFor(request, Accepted(phase.reply.message)))
  }

  predicate ProcessOk(w: World, pid: nat)
    requires pid in w.procs
  {
    var Process(request, phase) := w.procs[pid];
    && (Holding(phase) ==> request.transaction.portal in w.locks && w.locks[request.transaction.portal] == pid)
    && PhaseOk(w, request, phase)
  }

  predicate LockOk(w: World, portal: nat)
    requires portal in w.locks
  {
    var pid := w.locks[portal];
    pid in w.procs && Holding(w.procs[pid].phase) && w.procs[pid].request.transaction.portal == portal
  }

  /** Message ids are unique, and a client id appears only in its own task's log. */
  predicate LogOk(items: seq<Item>, portal: nat) {
    && (forall i, j :: 0 <= i < j < |items| ==> items[i].id != items[j].id)
    && (forall x :: x in items && x.client.Some? ==> x.client.value.portal == portal)
  }

  ghost predicate Inv(w: World) {
    && (forall t: Transaction :: AtMostOneCall(w, t))
    && (forall t: Transaction :: RecordOk(w, t))
    && (forall pid :: pid in w.procs ==> ProcessOk(w, pid))
    && (forall p :: p in w.locks ==> LockOk(w, p))
    && (forall p: nat :: LogOk(Log(w, p), p))
  }
}
