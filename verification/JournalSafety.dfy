/**
 Safety of the adapter machine over every run: the journal invariant is inductive, a
 transaction is submitted at most once, and acceptance is final.
 */
module JournalSafety {
  import opened Journal

  // ---------------------------------------------------------------- counting

  lemma CountPush(items: seq<Item>, x: Item, t: Transaction)
    ensures Count(items + [x], t) == Count(items, t) + (if x.client == Some(t) then 1 else 0)
  {
    assert (items + [x])[..|items|] == items;
  }

  lemma {:induction false} CountMember(items: seq<Item>, x: Item, t: Transaction)
    requires x in items && x.client == Some(t)
    ensures Count(items, t) >= 1
  {
    var init := items[..|items| - 1];
    if x in init { CountMember(init, x, t); }
  }

  /** With at most one item for a client id, any two such items are the same. */
  lemma {:induction false} CountUnique(items: seq<Item>, x: Item, y: Item, t: Transaction)
    requires Count(items, t) <= 1
    requires x in items && y in items && x.client == Some(t) && y.client == Some(t)
    ensures x == y
  {
    var init := items[..|items| - 1];
    if x in init && y in init {
      CountUnique(init, x, y, t);
    } else if x in init {
      CountMember(init, x, t);
    } else if y in init {
      CountMember(init, y, t);
    }
  }

  /** What a single match means: one of the messages read is the request's item. */
  lemma {:induction false} MatchesAre(items: seq<Item>, request: Request)
    ensures forall x :: x in Matches(items, request) <==> x in items && IsMatch(x, request)
  {
    if items != [] {
      MatchesAre(items[1..], request);
      assert items == [items[0]] + items[1..];
    }
  }

  // ---------------------------------------------------------------- the invariant is inductive

  lemma AppendKeepsInv(w: World, portal: nat, x: Item, spent: multiset<Transaction>)
    requires Inv(w) && FreshId(Log(w, portal), x.id)
    requires match x.client
             case None => spent == multiset{}
             case Some(t) => t.portal == portal && spent == multiset{t} && t in w.pending
    ensures Inv(Append(w, portal, x, spent))
  {
    var v := Append(w, portal, x, spent);
    forall t: Transaction ensures AtMostOneCall(v, t) && RecordOk(v, t) {
      assert AtMostOneCall(w, t) && RecordOk(w, t);
      AppendTransaction(w, portal, x, spent, t);
    }
    forall p: nat ensures LogOk(Log(v, p), p) { assert LogOk(Log(w, p), p); }
    forall pid | pid in v.procs ensures ProcessOk(v, pid) {
      assert ProcessOk(w, pid);
      AppendProcess(w, portal, x, spent, pid);
    }
    forall p | p in v.locks ensures LockOk(v, p) { assert LockOk(w, p); }
  }

  lemma {:induction false} AppendTransaction(w: World, portal: nat, x: Item, spent: multiset<Transaction>, t: Transaction)
    requires AtMostOneCall(w, t) && RecordOk(w, t)
    requires match x.client
             case None => spent == multiset{}
             case Some(s) => s.portal == portal && spent == multiset{s} && s in w.pending
    ensures AtMostOneCall(Append(w, portal, x, spent), t) && RecordOk(Append(w, portal, x, spent), t)
  {
    var v := Append(w, portal, x, spent);
    CountPush(Log(w, portal), x, t);
    if t.portal == portal {
      assert Log(v, t.portal) == Log(w, portal) + [x];
    } else {
      assert Log(v, t.portal) == Log(w, t.portal);
    }
    assert v.pending[t] == w.pending[t] - spent[t];
  }

  lemma AppendProcess(w: World, portal: nat, x: Item, spent: multiset<Transaction>, pid: nat)
    requires pid in w.procs && ProcessOk(w, pid)
    ensures ProcessOk(Append(w, portal, x, spent), pid)
  {
  }

  lemma DropKeepsInv(w: World, t: Transaction)
    requires Inv(w)
    ensures Inv(w.(pending := w.pending - multiset{t}))
  {
    var v := w.(pending := w.pending - multiset{t});
    forall s: Transaction ensures AtMostOneCall(v, s) && RecordOk(v, s) { assert AtMostOneCall(w, s) && RecordOk(w, s); }
    forall pid | pid in v.procs ensures ProcessOk(v, pid) { assert ProcessOk(w, pid); }
    forall p | p in v.locks ensures LockOk(v, p) { assert LockOk(w, p); }
    forall p: nat ensures LogOk(Log(v, p), p) { assert LogOk(Log(w, p), p); }
  }

  /** Of two processes holding locks for one task there is only one. */
  lemma MutualExclusion(w: World, a: nat, b: nat)
    requires Inv(w) && a in w.procs && b in w.procs
    requires Holding(w.procs[a].phase) && Holding(w.procs[b].phase)
    requires w.procs[a].request.transaction.portal == w.procs[b].request.transaction.portal
    ensures a == b
  {
    assert ProcessOk(w, a) && ProcessOk(w, b);
  }

  /** What a process knows before a step: its own part of the invariant. */
  predicate Local(w: World, pid: nat)
    requires pid in w.procs
  {
    var t := w.procs[pid].request.transaction;
    AtMostOneCall(w, t) && RecordOk(w, t) && ProcessOk(w, pid)
  }

  /** A step writes and calls only under the lock, never over an accepted record, and takes only a free lock. */
  predicate Confined(w: World, pid: nat, effect: Effect)
    requires pid in w.procs
  {
    var process := w.procs[pid];
    var t := process.request.transaction;
    && (effect.record.Some? || effect.call != Unchanged ==> Holding(process.phase))
    && (effect.record.Some? ==> !(t in w.journal && w.journal[t].status.Accepted?))
    && (effect.phase.Some? && Holding(effect.phase.value) && !Holding(process.phase) ==> t.portal !in w.locks)
  }

  /** A step that is confined and keeps its own part of the invariant. */
  predicate Lawful(w: World, pid: nat, effect: Effect)
    requires pid in w.procs
  {
    var v := Perform(w, pid, effect);
    var t := w.procs[pid].request.transaction;
    && Confined(w, pid, effect)
    && AtMostOneCall(v, t) && RecordOk(v, t)
    && (pid in v.procs ==> ProcessOk(v, pid))
  }

  lemma MoveIsLawful(w: World, pid: nat, phase: Phase)
    requires pid in w.procs && Local(w, pid) && PhaseOk(w, w.procs[pid].request, phase)
    requires Holding(phase) && !Holding(w.procs[pid].phase) ==> w.procs[pid].request.transaction.portal !in w.locks
    ensures Lawful(w, pid, To(phase).value)
  {
    var t := w.procs[pid].request.transaction;
    assert Log(Perform(w, pid, To(phase).value), t.portal) == Log(w, t.portal);
  }

  lemma DeathIsLawful(w: World, pid: nat)
    requires pid in w.procs && Local(w, pid)
    ensures Lawful(w, pid, Effect(None, None, Unchanged))
  {
    var t := w.procs[pid].request.transaction;
    assert Log(Perform(w, pid, Effect(None, None, Unchanged)), t.portal) == Log(w, t.portal);
  }

  lemma RecordIsLawful(w: World, pid: nat)
    requires pid in w.procs && Local(w, pid) && w.procs[pid].phase.Ready?
    ensures Lawful(w, pid, Effect(Some(Recorded), Some(Submitting), Unchanged))
  {
    var t := w.procs[pid].request.transaction;
    assert Log(Perform(w, pid, Effect(Some(Recorded), Some(Submitting), Unchanged)), t.portal) == Log(w, t.portal);
  }

  lemma ReleaseIsLawful(w: World, pid: nat)
    requires pid in w.procs && Local(w, pid) && w.procs[pid].phase.Refused?
    ensures Lawful(w, pid, Effect(Some(Done(Unsent)), Some(NotSent), Unchanged))
  {
    var t := w.procs[pid].request.transaction;
    assert Log(Perform(w, pid, Effect(Some(Done(Unsent)), Some(NotSent), Unchanged)), t.portal) == Log(w, t.portal);
  }

  lemma AcceptanceIsLawful(w: World, pid: nat)
    requires pid in w.procs && Local(w, pid) && w.procs[pid].phase.Matched?
    ensures var m := w.procs[pid].phase.message;
      Lawful(w, pid, Effect(Some(Done(Sent(m))), Some(Accepted(m)), Unchanged))
  {
    var t := w.procs[pid].request.transaction;
    var m := w.procs[pid].phase.message;
    assert Log(Perform(w, pid, Effect(Some(Done(Sent(m))), Some(Accepted(m)), Unchanged)), t.portal) == Log(w, t.portal);
  }

  lemma CallIsLawful(w: World, pid: nat)
    requires pid in w.procs && Local(w, pid) && w.procs[pid].phase.Recorded?
    ensures Lawful(w, pid, Effect(Some(Calling), None, Made))
  {
    var t := w.procs[pid].request.transaction;
    var v := Perform(w, pid, Effect(Some(Calling), None, Made));
    assert v.pending[t] == w.pending[t] + 1 && v.unrejected[t] == 1;
    assert Log(v, t.portal) == Log(w, t.portal);
  }

  lemma RejectionIsLawful(w: World, pid: nat)
    requires pid in w.procs && Local(w, pid) && w.procs[pid].phase.Calling?
    requires w.procs[pid].request.transaction in w.pending
    ensures Lawful(w, pid, Effect(Some(Refused), None, Rejected))
  {
    var t := w.procs[pid].request.transaction;
    var v := Perform(w, pid, Effect(Some(Refused), None, Rejected));
    assert w.unrejected[t] == 1 && v.unrejected[t] == 0 && v.pending[t] == w.pending[t] - 1;
    assert Log(v, t.portal) == Log(w, t.portal);
  }

  /** Recognizing the request's own item is justified by the messages read. */
  lemma RecognitionIsLawful(w: World, pid: nat, seen: seq<Item>)
    requires pid in w.procs && Local(w, pid) && Attempting(w, w.procs[pid].request) && Holding(w.procs[pid].phase)
    requires forall x :: x in seen ==> x in Log(w, w.procs[pid].request.transaction.portal)
    requires |Matches(seen, w.procs[pid].request)| == 1
    ensures Lawful(w, pid, To(Matched(Matches(seen, w.procs[pid].request)[0].id)).value)
  {
    var request := w.procs[pid].request;
    MatchesAre(seen, request);
    var item := Matches(seen, request)[0];
    assert item in Matches(seen, request);
    assert Item(item.id, Some(request.transaction), true, request.text) == item;
    MoveIsLawful(w, pid, Matched(item.id));
  }

  lemma ExamineIsLawful(w: World, pid: nat, seen: seq<Item>)
    requires pid in w.procs && Local(w, pid) && w.procs[pid].phase == Locked(seen)
    ensures Lawful(w, pid, Examine(w.journal, w.procs[pid].request, seen).value)
  {
    var request := w.procs[pid].request;
    if request.transaction !in w.journal {
      MoveIsLawful(w, pid, Ready);
    } else {
      var record := w.journal[request.transaction];
      if record != RecordFor(request, record.status) {
        MoveIsLawful(w, pid, Done(Uncertain));
      } else {
        match record.status
        case NotSent => MoveIsLawful(w, pid, Ready);
        case Accepted(message) => MoveIsLawful(w, pid, Done(Sent(message)));
        case Submitting =>
          if |Matches(seen, request)| == 1 {
            RecognitionIsLawful(w, pid, seen);
          } else {
            MoveIsLawful(w, pid, Done(Uncertain));
          }
      }
    }
  }

  lemma GoIsLawful(w: World, pid: nat)
    requires pid in w.procs && Local(w, pid) && Response(w, w.procs[pid], Go).Some?
    ensures Lawful(w, pid, Response(w, w.procs[pid], Go).value)
  {
    match w.procs[pid].phase
    case Waiting(seen) => MoveIsLawful(w, pid, Locked(seen));
    case Locked(seen) => ExamineIsLawful(w, pid, seen);
    case Ready => RecordIsLawful(w, pid);
    case Recorded => CallIsLawful(w, pid);
    case Calling => MoveIsLawful(w, pid, Polling);
    case Refused => ReleaseIsLawful(w, pid);
    case Matched(message) => AcceptanceIsLawful(w, pid);
    case _ =>
  }

  lemma ResponseIsLawful(w: World, pid: nat, move: Move)
    requires pid in w.procs && Local(w, pid) && Response(w, w.procs[pid], move).Some?
    ensures Lawful(w, pid, Response(w, w.procs[pid], move).value)
  {
    match move
    case Look(seen) =>
      if w.procs[pid].phase.Opening? {
        MoveIsLawful(w, pid, Waiting(seen));
      } else {
        RecognitionIsLawful(w, pid, seen);
      }
    case Go => GoIsLawful(w, pid);
    case Refuse =>
      if w.procs[pid].phase.Calling? { RejectionIsLawful(w, pid); } else { MoveIsLawful(w, pid, Done(Unsent)); }
    case Fail => MoveIsLawful(w, pid, Done(Uncertain));
    case Die => DeathIsLawful(w, pid);
  }

  lemma LawfulKeepsInv(w: World, pid: nat, effect: Effect)
    requires Inv(w) && pid in w.procs && Lawful(w, pid, effect)
    ensures Inv(Perform(w, pid, effect))
  {
    var v := Perform(w, pid, effect);
    forall s: Transaction ensures AtMostOneCall(v, s) && RecordOk(v, s) {
      assert AtMostOneCall(w, s) && RecordOk(w, s);
      if s != w.procs[pid].request.transaction { OtherTransactions(w, pid, effect, s); }
    }
    forall q | q in v.procs ensures ProcessOk(v, q) {
      if q != pid { OthersUnaffected(w, pid, effect, q); }
    }
    forall p | p in v.locks ensures LockOk(v, p) {
      LocksFollow(w, pid, effect, p);
    }
    forall p: nat ensures LogOk(Log(v, p), p) { assert LogOk(Log(w, p), p); }
  }

  lemma OtherTransactions(w: World, pid: nat, effect: Effect, s: Transaction)
    requires pid in w.procs && s != w.procs[pid].request.transaction && AtMostOneCall(w, s) && RecordOk(w, s)
    ensures AtMostOneCall(Perform(w, pid, effect), s) && RecordOk(Perform(w, pid, effect), s)
  {
  }

  lemma LocksFollow(w: World, pid: nat, effect: Effect, p: nat)
    requires Inv(w) && pid in w.procs && Confined(w, pid, effect) && p in Perform(w, pid, effect).locks
    ensures LockOk(Perform(w, pid, effect), p)
  {
    assert ProcessOk(w, pid);
    if p in w.locks { assert LockOk(w, p); }
  }

  lemma OthersUnaffected(w: World, pid: nat, effect: Effect, q: nat)
    requires Inv(w) && pid in w.procs && Confined(w, pid, effect) && q in w.procs && q != pid
    ensures ProcessOk(Perform(w, pid, effect), q)
  {
    assert ProcessOk(w, q) && ProcessOk(w, pid);
    var mine, theirs := w.procs[pid], w.procs[q];
    if Holding(theirs.phase) && Holding(mine.phase)
       && theirs.request.transaction.portal == mine.request.transaction.portal {
      MutualExclusion(w, pid, q);
    }
    OtherProcess(w, pid, effect, q);
  }

  lemma OtherProcess(w: World, pid: nat, effect: Effect, q: nat)
    requires pid in w.procs && q in w.procs && q != pid && ProcessOk(w, q) && Confined(w, pid, effect)
    requires Holding(w.procs[q].phase) && Holding(w.procs[pid].phase) ==>
               w.procs[q].request.transaction.portal != w.procs[pid].request.transaction.portal
    ensures ProcessOk(Perform(w, pid, effect), q)
  {
    var v := Perform(w, pid, effect);
    var Process(request, phase) := w.procs[q];
    assert Log(v, request.transaction.portal) == Log(w, request.transaction.portal);
    if !Holding(phase) && request.transaction == w.procs[pid].request.transaction {
      if phase.Done? && phase.reply.Sent? { assert w.journal[request.transaction].status.Accepted?; }
    }
  }

  lemma SpawnKeepsInv(w: World, pid: nat, request: Request)
    requires Inv(w) && pid !in w.procs
    ensures Inv(w.(procs := w.procs[pid := Process(request, Opening)]))
  {
    var v := w.(procs := w.procs[pid := Process(request, Opening)]);
    forall s: Transaction ensures AtMostOneCall(v, s) && RecordOk(v, s) { assert AtMostOneCall(w, s) && RecordOk(w, s); }
    forall q | q in v.procs ensures ProcessOk(v, q) { if q != pid { assert ProcessOk(w, q); } }
    forall p | p in v.locks ensures LockOk(v, p) { assert LockOk(w, p); }
    forall p: nat ensures LogOk(Log(v, p), p) { assert LogOk(Log(w, p), p); }
  }

  lemma NextKeepsInv(w: World, action: Action)
    requires Inv(w)
    ensures Inv(Next(w, action))
  {
    match action
    case Spawn(pid, request) =>
      if pid !in w.procs { SpawnKeepsInv(w, pid, request); }
    case Act(pid, move) =>
      if pid in w.procs && Response(w, w.procs[pid], move).Some? {
        assert ProcessOk(w, pid) && AtMostOneCall(w, w.procs[pid].request.transaction) && RecordOk(w, w.procs[pid].request.transaction);
        ResponseIsLawful(w, pid, move);
        LawfulKeepsInv(w, pid, Response(w, w.procs[pid], move).value);
      }
    case OwnerAppend(t, id, text) =>
      if t in w.pending && FreshId(Log(w, t.portal), id) {
        AppendKeepsInv(w, t.portal, Item(id, Some(t), true, text), multiset{t});
      }
    case OwnerDrop(t) => DropKeepsInv(w, t);
    case OtherAppend(portal, item) =>
      if item.client.None? && FreshId(Log(w, portal), item.id) {
        AppendKeepsInv(w, portal, item, multiset{});
      }
  }

  // ---------------------------------------------------------------- runs

  /** No send has been attempted: an empty journal, no process, no item with a client id. */
  predicate Fresh(w: World) {
    && w.pending == multiset{} && w.unrejected == multiset{} && w.journal == map[]
    && w.locks == map[] && w.procs == map[]
    && forall p :: p in w.rollout ==> LogOk(w.rollout[p], p) && forall x :: x in w.rollout[p] ==> x.client.None?
  }

  lemma {:induction false} CountNone(items: seq<Item>, t: Transaction)
    requires forall x :: x in items ==> x.client.None?
    ensures Count(items, t) == 0
  {
    if items != [] { CountNone(items[..|items| - 1], t); }
  }

  lemma FreshInv(w: World)
    requires Fresh(w)
    ensures Inv(w)
  {
    forall t: Transaction ensures AtMostOneCall(w, t) { CountNone(Log(w, t.portal), t); }
    forall p: nat ensures LogOk(Log(w, p), p) { }
  }

  lemma {:induction false} RunKeepsInv(w: World, actions: seq<Action>)
    requires Inv(w)
    ensures Inv(Run(w, actions))
  {
    if actions != [] {
      RunKeepsInv(w, actions[..|actions| - 1]);
      NextKeepsInv(Run(w, actions[..|actions| - 1]), actions[|actions| - 1]);
    }
  }

  /**
   Over every run of any number of adapter processes and the owner, with deaths between any
   two steps, a transaction gains at most one rollout item and has at most one call that was
   not explicitly rejected; calls still open count against the same bound.
   */
  lemma AtMostOnce(w: World, actions: seq<Action>, t: Transaction)
    requires Fresh(w)
    ensures var v := Run(w, actions);
      Count(Log(v, t.portal), t) + v.pending[t] <= v.unrejected[t] <= 1
  {
    FreshInv(w);
    RunKeepsInv(w, actions);
    assert AtMostOneCall(Run(w, actions), t);
  }

  lemma OnlyCallsAreCounted(w: World, action: Action, t: Transaction)
    requires Next(w, action).unrejected[t] > w.unrejected[t]
    ensures action.Act? && action.pid in w.procs
    ensures w.procs[action.pid].phase.Recorded? && w.procs[action.pid].request.transaction == t
  {
  }

  /** Calls are only made over a durable submitting record, and only when none is outstanding. */
  lemma CallFollowsRecord(w: World, actions: seq<Action>, action: Action, t: Transaction)
    requires Fresh(w)
    requires Next(Run(w, actions), action).unrejected[t] > Run(w, actions).unrejected[t]
    ensures var v := Run(w, actions);
      && t in v.journal && v.journal[t].status.Submitting?
      && v.unrejected[t] == 0 && Count(Log(v, t.portal), t) == 0
  {
    FreshInv(w);
    RunKeepsInv(w, actions);
    var v := Run(w, actions);
    OnlyCallsAreCounted(v, action, t);
    assert ProcessOk(v, action.pid) && AtMostOneCall(v, t);
  }

  lemma AcceptedStep(w: World, action: Action, t: Transaction)
    requires Inv(w) && t in w.journal && w.journal[t].status.Accepted?
    ensures t in Next(w, action).journal && Next(w, action).journal[t] == w.journal[t]
  {
    match action
    case Act(pid, move) =>
      if pid in w.procs && Response(w, w.procs[pid], move).Some? {
        assert ProcessOk(w, pid) && AtMostOneCall(w, w.procs[pid].request.transaction) && RecordOk(w, w.procs[pid].request.transaction);
        ResponseIsLawful(w, pid, move);
      }
    case _ =>
  }

  /** An accepted record is never rewritten. */
  lemma {:induction false} AcceptedForever(w: World, actions: seq<Action>, t: Transaction)
    requires Inv(w) && t in w.journal && w.journal[t].status.Accepted?
    ensures t in Run(w, actions).journal && Run(w, actions).journal[t] == w.journal[t]
  {
    if actions != [] {
      var init := actions[..|actions| - 1];
      AcceptedForever(w, init, t);
      RunKeepsInv(w, init);
      AcceptedStep(Run(w, init), actions[|actions| - 1], t);
    }
  }

  /**
   Every accepted answer for a transaction, whichever process gave it and whenever, names the
   same message; that message is the only one with the client id, and it has the request's text.
   */
  lemma OneAnswer(w: World, first: seq<Action>, rest: seq<Action>, a: nat, b: nat)
    requires Fresh(w)
    requires var v := Run(w, first);
      a in v.procs && v.procs[a].phase.Done? && v.procs[a].phase.reply.Sent?
    requires var u := Run(Run(w, first), rest);
      b in u.procs && u.procs[b].phase.Done? && u.procs[b].phase.reply.Sent?
    requires Run(w, first).procs[a].request.transaction == Run(Run(w, first), rest).procs[b].request.transaction
    ensures var v := Run(w, first); var u := Run(v, rest);
      var request := v.procs[a].request; var message := v.procs[a].phase.reply.message;
      && u.procs[b].phase.reply.message == message
      && u.procs[b].request == request
      && Item(message, Some(request.transaction), true, request.text) in Log(u, request.transaction.portal)
      && (forall x :: x in Log(u, request.transaction.portal) && x.client == Some(request.transaction) ==> x.id == message)
  {
    FreshInv(w);
    var v := Run(w, first);
    RunKeepsInv(w, first);
    var u := Run(v, rest);
    RunKeepsInv(v, rest);
    var request := v.procs[a].request;
    var t := request.transaction;
    assert ProcessOk(v, a);
    AcceptedForever(v, rest, t);
    assert ProcessOk(u, b) && RecordOk(u, t) && AtMostOneCall(u, t);
    var item := Item(v.procs[a].phase.reply.message, Some(t), true, request.text);
    forall x | x in Log(u, t.portal) && x.client == Some(t) ensures x.id == item.id {
      CountUnique(Log(u, t.portal), x, item, t);
    }
  }

  lemma UnsentStep(w: World, pid: nat, move: Move)
    requires Inv(w) && pid in w.procs && Holding(w.procs[pid].phase)
    requires Response(w, w.procs[pid], move).Some?
    requires Response(w, w.procs[pid], move).value.phase == Some(Done(Unsent))
    ensures w.procs[pid].phase.Ready? || w.procs[pid].phase.Refused?
  {
  }

  /** not_sent from send_locked, under the task lock: no call is outstanding and no item exists. */
  lemma UnsentUnderLockMeansNothing(w: World, actions: seq<Action>, pid: nat, move: Move)
    requires Fresh(w)
    requires var v := Run(w, actions); pid in v.procs && Holding(v.procs[pid].phase)
    requires var u := Next(Run(w, actions), Act(pid, move)); pid in u.procs && u.procs[pid].phase == Done(Unsent)
    ensures var u := Next(Run(w, actions), Act(pid, move)); var t := u.procs[pid].request.transaction;
      && Idle(u, t) && u.unrejected[t] == 0 && u.pending[t] == 0 && Count(Log(u, t.portal), t) == 0
  {
    hide Run, Inv, Next, Idle;
    FreshInv(w);
    RunKeepsInv(w, actions);
    UnsentMeans(Run(w, actions), pid, move);
  }

  lemma UnsentMeans(v: World, pid: nat, move: Move)
    requires Inv(v) && pid in v.procs && Holding(v.procs[pid].phase)
    requires var u := Next(v, Act(pid, move)); pid in u.procs && u.procs[pid].phase == Done(Unsent)
    ensures var u := Next(v, Act(pid, move)); var t := u.procs[pid].request.transaction;
      && Idle(u, t) && u.unrejected[t] == 0 && u.pending[t] == 0 && Count(Log(u, t.portal), t) == 0
  {
    var u := Next(v, Act(pid, move));
    NextKeepsInv(v, Act(pid, move));
    UnsentIsIdle(v, pid, move);
    IdleMeansNone(u, u.procs[pid].request.transaction);
  }

  lemma UnsentIsIdle(v: World, pid: nat, move: Move)
    requires Inv(v) && pid in v.procs && Holding(v.procs[pid].phase)
    requires var u := Next(v, Act(pid, move)); pid in u.procs && u.procs[pid].phase == Done(Unsent)
    ensures var u := Next(v, Act(pid, move)); Idle(u, u.procs[pid].request.transaction)
  {
    UnsentStep(v, pid, move);
    assert ProcessOk(v, pid);
  }

  lemma IdleMeansNone(u: World, t: Transaction)
    requires Inv(u) && Idle(u, t)
    ensures u.unrejected[t] == 0 && u.pending[t] == 0 && Count(Log(u, t.portal), t) == 0
  {
    assert AtMostOneCall(u, t) && RecordOk(u, t);
  }

  lemma RunPush(w: World, actions: seq<Action>, action: Action)
    ensures Run(w, actions + [action]) == Next(Run(w, actions), action)
  {
    assert (actions + [action])[..|actions|] == actions;
  }

  ghost predicate Reach(w: World, v: World) {
    exists actions: seq<Action> :: Run(w, actions) == v
  }

  lemma ReachStep(w: World, v: World, action: Action, u: World)
    requires Reach(w, v) && Next(v, action) == u
    ensures Reach(w, u)
  {
    var actions: seq<Action> :| Run(w, actions) == v;
    RunPush(w, actions, action);
  }

  lemma Advance(w: World, v: World, pid: nat, move: Move, effect: Effect) returns (u: World)
    requires Reach(w, v) && pid in v.procs && Response(v, v.procs[pid], move) == Some(effect)
    ensures Reach(w, u) && u == Perform(v, pid, effect)
  {
    u := Perform(v, pid, effect);
    ReachStep(w, v, Act(pid, move), u);
  }

  /** One process alone takes its lock and finds no record. */
  lemma ReadyReached(w: World, request: Request) returns (v: World)
    requires w == World(map[], multiset{}, multiset{}, map[], map[], map[])
    ensures Reach(w, v) && v.procs == map[0 := Process(request, Ready)] && v.locks == map[request.transaction.portal := 0]
    ensures v.journal == map[] && v.pending == multiset{} && v.unrejected == multiset{} && v.rollout == map[]
  {
    assert Run(w, []) == w;
    v := w.(procs := w.procs[0 := Process(request, Opening)]);
    ReachStep(w, w, Spawn(0, request), v);
    v := Advance(w, v, 0, Look([]), To(Waiting([])).value);
    v := LockTaken(w, v, request);
  }

  lemma LockTaken(w: World, u: World, request: Request) returns (v: World)
    requires Reach(w, u) && u.procs == map[0 := Process(request, Waiting([]))] && u.locks == map[] && u.journal == map[]
    ensures Reach(w, v) && v.procs == map[0 := Process(request, Ready)] && v.locks == map[request.transaction.portal := 0]
    ensures v.journal == u.journal && v.pending == u.pending && v.unrejected == u.unrejected && v.rollout == u.rollout
  {
    v := Advance(w, u, 0, Go, To(Locked([])).value);
    v := Advance(w, v, 0, Go, To(Ready).value);
  }

  /** It then records the attempt and calls. */
  lemma AttemptMade(w: World, u: World, pid: nat, request: Request) returns (v: World)
    requires Reach(w, u) && pid in u.procs && u.procs[pid] == Process(request, Ready)
    ensures Reach(w, v) && v.procs == u.procs[pid := Process(request, Calling)] && v.rollout == u.rollout
    ensures request.transaction in v.pending && v.locks == u.locks
    ensures v.journal == u.journal[request.transaction := RecordFor(request, Submitting)]
  {
    v := Advance(w, u, pid, Go, Effect(Some(Recorded), Some(Submitting), Unchanged));
    v := Advance(w, v, pid, Go, Effect(Some(Calling), None, Made));
  }

  /** And the owner appends its item. */
  lemma SubmittedReached(w: World, request: Request) returns (v: World)
    requires w == World(map[], multiset{}, multiset{}, map[], map[], map[])
    ensures Reach(w, v) && v.procs == map[0 := Process(request, Calling)]
    ensures Log(v, request.transaction.portal) == [Item(7, Some(request.transaction), true, request.text)]
  {
    hide Response, Perform;
    v := ReadyReached(w, request);
    v := AttemptMade(w, v, 0, request);
    var t := request.transaction;
    var item := Item(7, Some(t), true, request.text);
    assert Log(v, t.portal) + [item] == [item];
    var u := Append(v, t.portal, item, multiset{t});
    ReachStep(w, v, OwnerAppend(t, 7, request.text), u);
    v := u;
  }

  /** An attempt that the owner answers: from the free attempt to the recorded acceptance. */
  lemma AttemptAccepted(w: World, u: World, pid: nat, request: Request, id: nat) returns (v: World)
    requires Reach(w, u) && pid in u.procs && u.procs[pid] == Process(request, Ready)
    requires FreshId(Log(u, request.transaction.portal), id)
    ensures Reach(w, v) && pid in v.procs && v.procs[pid] == Process(request, Done(Sent(id)))
    ensures Log(v, request.transaction.portal) == Log(u, request.transaction.portal) + [Item(id, Some(request.transaction), true, request.text)]
    ensures v.journal == u.journal[request.transaction := RecordFor(request, Accepted(id))]
  {
    var t := request.transaction;
    hide Response, Perform;
    var item := Item(id, Some(t), true, request.text);
    v := AttemptMade(w, u, pid, request);
    var c := Append(v, t.portal, item, multiset{t});
    ReachStep(w, v, OwnerAppend(t, id, request.text), c);
    v := AnswerFound(w, c, pid, request, item);
  }

  lemma AnswerFound(w: World, c: World, pid: nat, request: Request, item: Item) returns (v: World)
    requires Reach(w, c) && pid in c.procs && c.procs[pid] == Process(request, Calling)
    requires item in Log(c, request.transaction.portal) && IsMatch(item, request)
    ensures Reach(w, v) && pid in v.procs && v.procs[pid] == Process(request, Done(Sent(item.id))) && v.rollout == c.rollout
    ensures v.journal == c.journal[request.transaction := RecordFor(request, Accepted(item.id))]
  {
    hide Response;
    v := AnswerSeen(w, c, pid, request, item);
    LastWrite(v, v.procs[pid]);
    v := Advance(w, v, pid, Go, Effect(Some(Done(Sent(item.id))), Some(Accepted(item.id)), Unchanged));
  }

  /** The last write of a run of send_locked. */
  lemma LastWrite(w: World, process: Process)
    ensures process.phase.Matched? ==>
      Response(w, process, Go) == Some(Effect(Some(Done(Sent(process.phase.message))), Some(Accepted(process.phase.message)), Unchanged))
    ensures process.phase.Refused? ==> Response(w, process, Go) == Some(Effect(Some(Done(Unsent)), Some(NotSent), Unchanged))
  {
  }

  /** The call returns, and the first look finds the item. */
  lemma OneMatch(w: World, process: Process, item: Item)
    requires item in Log(w, process.request.transaction.portal) && IsMatch(item, process.request)
    ensures process.phase.Calling? ==> Response(w, process, Go) == To(Polling)
    ensures process.phase.Polling? ==> Response(w, process, Look([item])) == To(Matched(item.id))
  {
    assert [item][1..] == [] && Matches([item], process.request) == [item];
  }

  lemma AnswerSeen(w: World, c: World, pid: nat, request: Request, item: Item) returns (v: World)
    requires Reach(w, c) && pid in c.procs && c.procs[pid] == Process(request, Calling)
    requires item in Log(c, request.transaction.portal) && IsMatch(item, request)
    ensures Reach(w, v) && pid in v.procs && v.procs[pid] == Process(request, Matched(item.id))
    ensures v.rollout == c.rollout && v.journal == c.journal
  {
    hide Response;
    OneMatch(c, c.procs[pid], item);
    v := Advance(w, c, pid, Go, To(Polling).value);
    OneMatch(v, v.procs[pid], item);
    v := Advance(w, v, pid, Look([item]), To(Matched(item.id)).value);
  }

  /** A call that the owner declines. */
  lemma CallDeclined(w: World, c: World, pid: nat, request: Request) returns (v: World)
    requires Reach(w, c) && pid in c.procs && c.procs[pid] == Process(request, Calling) && request.transaction in c.pending
    requires c.locks == map[request.transaction.portal := pid]
    ensures Reach(w, v) && v.procs == c.procs[pid := Process(request, Done(Unsent))] && v.locks == map[] && v.rollout == c.rollout
    ensures v.journal == c.journal[request.transaction := RecordFor(request, NotSent)]
  {
    hide Response;
    v := CallRejected(w, c, pid, request);
    LastWrite(v, v.procs[pid]);
    v := Advance(w, v, pid, Go, Effect(Some(Done(Unsent)), Some(NotSent), Unchanged));
  }

  lemma CallRejected(w: World, c: World, pid: nat, request: Request) returns (v: World)
    requires Reach(w, c) && pid in c.procs && c.procs[pid] == Process(request, Calling) && request.transaction in c.pending
    ensures Reach(w, v) && v.procs == c.procs[pid := Process(request, Refused)] && v.locks == c.locks
    ensures v.rollout == c.rollout && v.journal == c.journal
  {
    v := Advance(w, c, pid, Refuse, Effect(Some(Refused), None, Rejected));
  }

  /**
   A refusal is not final: whenever its record says not_sent and the task is free, another process
   with the same request can attempt it again, and be accepted.
   */
  lemma RefusedIsRetried(w: World, pid: nat, request: Request, id: nat) returns (v: World)
    requires pid !in w.procs && request.transaction.portal !in w.locks && FreshId(Log(w, request.transaction.portal), id)
    requires request.transaction in w.journal && w.journal[request.transaction] == RecordFor(request, NotSent)
    ensures Reach(w, v) && pid in v.procs && v.procs[pid] == Process(request, Done(Sent(id)))
    ensures v.journal == w.journal[request.transaction := RecordFor(request, Accepted(id))]
  {
    hide Response, Perform;
    v := ProcessWaits(w, pid, request);
    v := LockTakenAgain(w, v, pid, request);
    v := AttemptAccepted(w, v, pid, request, id);
  }

  lemma ProcessWaits(w: World, pid: nat, request: Request) returns (v: World)
    requires pid !in w.procs
    ensures Reach(w, v) && pid in v.procs && v.procs[pid] == Process(request, Waiting([]))
    ensures v.journal == w.journal && v.rollout == w.rollout && v.locks == w.locks
  {
    assert Run(w, []) == w;
    var u := w.(procs := w.procs[pid := Process(request, Opening)]);
    ReachStep(w, w, Spawn(pid, request), u);
    v := Advance(w, u, pid, Look([]), To(Waiting([])).value);
  }

  lemma LockTakenAgain(w: World, u: World, pid: nat, request: Request) returns (v: World)
    requires Reach(w, u) && pid in u.procs && u.procs[pid] == Process(request, Waiting([]))
    requires request.transaction.portal !in u.locks
    requires request.transaction in u.journal && u.journal[request.transaction] == RecordFor(request, NotSent)
    ensures Reach(w, v) && pid in v.procs && v.procs[pid] == Process(request, Ready)
    ensures v.journal == u.journal && v.rollout == u.rollout
  {
    v := Advance(w, u, pid, Go, To(Locked([])).value);
    v := Advance(w, v, pid, Go, To(Ready).value);
  }

  /** For every request: its first call is refused, and its second accepted. */
  lemma RefusedThenAccepted(request: Request, id: nat) returns (w: World, u: World, v: World)
    ensures Fresh(w) && Reach(w, u) && 0 in u.procs && u.procs[0] == Process(request, Done(Unsent))
    ensures Reach(u, v) && 1 in v.procs && v.procs[1] == Process(request, Done(Sent(id)))
    ensures Log(u, request.transaction.portal) == [] && u.journal == map[request.transaction := RecordFor(request, NotSent)]
  {
    w := World(map[], multiset{}, multiset{}, map[], map[], map[]);
    u := ReadyReached(w, request);
    u := AttemptMade(w, u, 0, request);
    u := CallDeclined(w, u, 0, request);
    v := RefusedIsRetried(u, 1, request, id);
  }

  /**
   The same is false of send as a whole: its size check answers not_sent before the journal is
   read, even for a transaction whose item is already in the rollout.
   */
  lemma UnsentBeforeLockMeansLittle(request: Request) returns (w: World, v: World)
    ensures Fresh(w) && Reach(w, v)
    ensures 1 in v.procs && v.procs[1] == Process(request, Done(Unsent))
    ensures Count(Log(v, request.transaction.portal), request.transaction) == 1
  {
    w := World(map[], multiset{}, multiset{}, map[], map[], map[]);
    var u := SubmittedReached(w, request);
    v := u.(procs := u.procs[1 := Process(request, Opening)]);
    ReachStep(w, u, Spawn(1, request), v);
    v := Advance(w, v, 1, Refuse, Exit(Unsent).value);
    CountPush([], Item(7, Some(request.transaction), true, request.text), request.transaction);
    assert [] + [Item(7, Some(request.transaction), true, request.text)] == Log(v, request.transaction.portal);
  }
}
