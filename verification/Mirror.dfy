/**
 The inbound mirror with edits on (pkg/connector/events.go, reconcile.go, connector.go): one
 room's message rows, the homeserver's accepted transactions and timeline, and the durable
 operations each source event performs, one at a time.

 Digests and stable ids are injective, so they are modelled by what they digest. The
 homeserver answers a repeated transaction with the earlier event (internal/delivery).
 */
module Mirror {

  datatype Option<+T> = None | Some(value: T)

  type Content = string
  const TOMBSTONE: Content := "[This part was superseded by an updated message.]"

  datatype Role = User | Assistant

  /** The source hash: role and raw body. */
  datatype Source = Source(role: Role, body: string)

  /** A source message with the contents splitMessage gave for it; there is always one. */
  datatype Message = Message(id: nat, source: Source, parts: seq<Content>)

  datatype Checkpoint = Checkpoint(ids: seq<nat>, generation: nat)

  /** A framework message id: a source message's, or a branch notice's. */
  datatype Id = Of(message: nat) | NoticeOf(checkpoint: Checkpoint)

  /** MessageMetadata. shown is the presentation hash, count the part count (0: unset). */
  datatype Metadata = Metadata(hash: Source, shown: Option<Content>, count: nat, generation: nat, attachments: bool)

  /** A stored part: its Matrix event and whether this bridge's sender may edit that event. */
  datatype Row = Row(part: nat, event: nat, mine: bool, meta: Metadata)

  /**
   Matrix transactions: an original names only its part, an edit also its generation, source and
   content, a presentation sent with edits off its part and content.
   */
  datatype Key =
    | Original(id: Id, part: nat)
    | Edit(id: Id, part: nat, generation: nat, hash: Source, content: Content)
    | Presentation(id: Id, part: nat, content: Content)

  /** Typed is the user's own Matrix message, which the outbox tied to that source message. */
  datatype Post = New(content: Content) | Replace(target: nat, content: Content) | Notice | Typed(message: nat, content: Content)

  /** A room event and the bridge transaction that made it, if one did. */
  datatype Sent = Sent(key: Option<Key>, post: Post)

  datatype Store = Store(rows: map<Id, seq<Row>>, accepted: map<Key, nat>, timeline: seq<Sent>)

  /** The durable operations: a homeserver request, a row update, a row insertion. */
  datatype Op =
    | Send(key: Key, post: Post)
    | Save(id: Id, part: nat, meta: Metadata)
    | Insert(id: Id, part: nat, key: Key, meta: Metadata)

  /** One event of a dispatch: a part of a message, or a branch notice. */
  datatype Event = Part(message: Message, index: nat) | Branch(checkpoint: Checkpoint)

  /** What handling an event does, and whether it succeeds. */
  datatype Plan = Plan(ops: seq<Op>, ok: bool)

  function RowsOf(rows: map<Id, seq<Row>>, id: Id): seq<Row> {
    if id in rows then rows[id] else []
  }

  function SetMeta(rows: seq<Row>, part: nat, meta: Metadata): seq<Row> {
    if rows == [] then []
    else [if rows[0].part == part then rows[0].(meta := meta) else rows[0]] + SetMeta(rows[1..], part, meta)
  }

  function Apply(s: Store, op: Op): Store {
    match op
    case Send(key, post) =>
      if key in s.accepted then s
      else s.(accepted := s.accepted[key := |s.timeline|], timeline := s.timeline + [Sent(Some(key), post)])
    case Save(id, part, meta) => s.(rows := s.rows[id := SetMeta(RowsOf(s.rows, id), part, meta)])
    case Insert(id, part, key, meta) =>
      var event := if key in s.accepted then s.accepted[key] else 0;
      s.(rows := s.rows[id := RowsOf(s.rows, id) + [Row(part, event, true, meta)]])
  }

  function Exec(s: Store, ops: seq<Op>): Store
    decreases |ops|
  {
    if ops == [] then s else Exec(Apply(s, ops[0]), ops[1..])
  }

  // ---------------------------------------------------------------- reconciledPartUpsert

  /** Rows that end reconciliation: an attachment message, or the user's own Matrix message. */
  predicate Settling(row: Row, m: Message) {
    row.meta.attachments
    || (m.source.role.User? && row.part == 0 && row.meta.count == 0 && row.meta.hash == m.source)
  }

  /** The rows before the first settling one. */
  function Scanned(rows: seq<Row>, m: Message): seq<Row> {
    if rows == [] || Settling(rows[0], m) then [] else [rows[0]] + Scanned(rows[1..], m)
  }

  /** applySourceEdit sends unless the row already records exactly this. */
  predicate Differs(row: Row, m: Message, content: Content) {
    row.meta.hash != m.source || row.meta.shown != Some(content) || row.meta.count != |m.parts|
  }

  /** Rows past the last part, not yet showing the tombstone. */
  function Stale(rows: seq<Row>, m: Message): seq<Row> {
    if rows == [] then []
    else (if rows[0].part >= |m.parts| && Differs(rows[0], m, TOMBSTONE) then [rows[0]] else []) + Stale(rows[1..], m)
  }

  predicate AllMine(rows: seq<Row>) {
    forall r :: r in rows ==> r.mine
  }

  /** The rows before the first one whose event this sender may not edit. */
  function Mine(rows: seq<Row>): seq<Row> {
    if rows == [] || !rows[0].mine then [] else [rows[0]] + Mine(rows[1..])
  }

  function Find(rows: seq<Row>, part: nat): Option<Row> {
    if rows == [] then None
    else if rows[0].part == part then Some(rows[0]) else Find(rows[1..], part)
  }

  predicate UpToDate(row: Row, m: Message, content: Content) {
    || (row.meta.hash == m.source && row.meta.shown == Some(content)
        && (row.meta.count == |m.parts| || (|m.parts| == 1 && row.meta.count == 0)))
    || (row.meta.hash == m.source && m.source.role.User? && row.meta.shown.None?)
  }

  /** An edit applySourceEdit makes: the row and the content it is to show. */
  datatype Change = Change(row: Row, content: Content)

  function Tombstones(rows: seq<Row>): seq<Change> {
    if rows == [] then [] else [Change(rows[0], TOMBSTONE)] + Tombstones(rows[1..])
  }

  function EditOf(m: Message, c: Change): Op {
    Send(Edit(Of(m.id), c.row.part, c.row.meta.generation + 1, m.source, c.content), Replace(c.row.event, c.content))
  }

  function EditedMeta(m: Message, c: Change): Metadata {
    Metadata(m.source, Some(c.content), |m.parts|, c.row.meta.generation + 1, false)
  }

  function SaveOf(m: Message, c: Change): Op {
    Save(Of(m.id), c.row.part, EditedMeta(m, c))
  }

  function Edits(m: Message, changes: seq<Change>): seq<Op> {
    if changes == [] then [] else [EditOf(m, changes[0])] + Edits(m, changes[1..])
  }

  function Saves(m: Message, changes: seq<Change>): seq<Op> {
    if changes == [] then [] else [SaveOf(m, changes[0])] + Saves(m, changes[1..])
  }

  /** The metadata a part is first stored with (events.go). */
  function NewMeta(m: Message, index: nat): Metadata
    requires index < |m.parts|
  {
    Metadata(m.source, if m.source.role.Assistant? then Some(m.parts[index]) else None,
             if |m.parts| > 1 then |m.parts| else 0, 0, false)
  }

  /** ContinueMessageHandling: the framework sends the part and inserts its row. */
  function Addition(m: Message, index: nat): seq<Op>
    requires index < |m.parts|
  {
    var key := Original(Of(m.id), index);
    [Send(key, New(m.parts[index])), Insert(Of(m.id), index, key, NewMeta(m, index))]
  }

  /** Stale rows are looked for only while handling part 0. */
  function StaleFor(rows: seq<Row>, m: Message, index: nat): seq<Row> {
    if index == 0 then Stale(Scanned(rows, m), m) else []
  }

  /** The part's own row, when it does not yet show the part's content. */
  function Outdated(rows: seq<Row>, m: Message, index: nat): seq<Change>
    requires index < |m.parts|
  {
    var target := Find(rows, index);
    if target.Some? && !UpToDate(target.value, m, m.parts[index]) then [Change(target.value, m.parts[index])] else []
  }

  /** Every edit the event calls for: superseded parts first, then the part itself. */
  function Changes(rows: seq<Row>, m: Message, index: nat): seq<Change>
    requires index < |m.parts|
  {
    Tombstones(StaleFor(rows, m, index)) + Outdated(rows, m, index)
  }

  /** The edit the event makes of one row, if any. */
  function MarkOf(row: Row, m: Message, index: nat): Option<Change>
    requires index < |m.parts|
  {
    if index == 0 && row.part >= |m.parts| && Differs(row, m, TOMBSTONE) then Some(Change(row, TOMBSTONE))
    else if row.part == index && !UpToDate(row, m, m.parts[index]) then Some(Change(row, m.parts[index]))
    else None
  }

  /** The same edits in row order, in which SaveParts commits them. */
  function Marked(rows: seq<Row>, m: Message, index: nat): seq<Change>
    requires index < |m.parts|
  {
    if rows == [] then []
    else
      var mark := MarkOf(rows[0], m, index);
      (if mark.Some? then [mark.value] else []) + Marked(rows[1..], m, index)
  }

  /** reconciledPartUpsert: the edits it sends before it returns, and whether it succeeds. */
  function Upsert(rows: seq<Row>, m: Message, index: nat): Plan
    requires index < |m.parts|
  {
    var stale := StaleFor(rows, m, index);
    var outdated := Outdated(rows, m, index);
    if !AllMine(stale) then Plan(Edits(m, Tombstones(Mine(stale))), false)
    else if |Scanned(rows, m)| < |rows| then Plan(Edits(m, Tombstones(stale)), true)
    else if outdated != [] && !outdated[0].row.mine then Plan(Edits(m, Tombstones(stale)), false)
    else Plan(Edits(m, Changes(rows, m, index)), true)
  }

  /** The whole of a part's event: the edits, then the row updates, then the part if it is missing. */
  function Reconcile(rows: seq<Row>, m: Message, index: nat): Plan
    requires index < |m.parts|
  {
    var sent := Upsert(rows, m, index);
    if !sent.ok || |Scanned(rows, m)| < |rows| then sent
    else
      Plan(sent.ops + Saves(m, Marked(rows, m, index))
           + (if Find(rows, index).None? then Addition(m, index) else []), true)
  }

  /** A branch notice is sent once: the framework ignores an id it already stores. */
  function Announce(rows: seq<Row>, checkpoint: Checkpoint): Plan {
    var id := NoticeOf(checkpoint);
    if rows != [] then Plan([], true)
    else
      var meta := Metadata(Source(Assistant, "branch-change"), None, 0, 0, false);
      Plan([Send(Original(id, 0), Notice), Insert(id, 0, Original(id, 0), meta)], true)
  }

  predicate ValidEvent(e: Event) {
    e.Part? ==> e.index < |e.message.parts|
  }

  function IdOf(e: Event): Id {
    if e.Part? then Of(e.message.id) else NoticeOf(e.checkpoint)
  }

  function PlanFor(s: Store, e: Event): Plan
    requires ValidEvent(e)
  {
    match e
    case Part(m, index) => Reconcile(RowsOf(s.rows, Of(m.id)), m, index)
    case Branch(checkpoint) => Announce(RowsOf(s.rows, NoticeOf(checkpoint)), checkpoint)
  }

  // ---------------------------------------------------------------- dispatch

  datatype Outcome = Outcome(store: Store, ok: bool)

  predicate ValidEvents(events: seq<Event>) {
    forall e :: e in events ==> ValidEvent(e)
  }

  /** A failure-free dispatch: every event in order, stopping at the first that errs. */
  function Deliver(s: Store, events: seq<Event>): Outcome
    requires ValidEvents(events)
    decreases |events|
  {
    if events == [] then Outcome(s, true)
    else
      var plan := PlanFor(s, events[0]);
      var next := Exec(s, plan.ops);
      if plan.ok then Deliver(next, events[1..]) else Outcome(next, false)
  }

  /**
   A dispatch cut off after its first budget durable operations: a crash, a refused request,
   or a request that was accepted but whose answer or local commit was lost.
   */
  function Attempt(s: Store, events: seq<Event>, budget: nat): Store
    requires ValidEvents(events)
    decreases |events|
  {
    if events == [] then s
    else
      var plan := PlanFor(s, events[0]);
      if budget < |plan.ops| then Exec(s, plan.ops[..budget])
      else if plan.ok then Attempt(Exec(s, plan.ops), events[1..], budget - |plan.ops|)
      else Exec(s, plan.ops)
  }

  /** The room's view: what an event shows after all its edits. */
  function Visible(timeline: seq<Sent>, event: nat): Option<Content> {
    if timeline == [] then None
    else
      var last := |timeline| - 1;
      var before := Visible(timeline[..last], event);
      match timeline[last].post
      case New(content) => if last == event then Some(content) else before
      case Typed(_, content) => if last == event then Some(content) else before
      case Replace(target, content) => if target == event then Some(content) else before
      case Notice => before
  }
}
