/**
 The adapter as the program runs it (scripts/codex_source.py, send, send_locked and
 atomic_record): one process among competing ones, between any two of whose steps the others,
 the task owner and crashes may do anything the machine of Journal allows. Every step of the
 code is a step of that machine, so all that is proved of its runs is proved of the code.
 */
module AdapterCode {
  import opened Journal
  import opened JournalSafety

  lemma ReachSelf(w: World)
    ensures Reach(w, w)
  {
    assert Run(w, []) == w;
  }

  lemma {:induction false} RunJoin(w: World, first: seq<Action>, rest: seq<Action>)
    ensures Run(w, first + rest) == Run(Run(w, first), rest)
  {
    if rest == [] {
      assert first + rest == first;
    } else {
      var last := |rest| - 1;
      assert (first + rest)[..|first + rest| - 1] == first + rest[..last];
      RunJoin(w, first, rest[..last]);
    }
  }

  lemma ReachOn(w: World, v: World, u: World)
    requires Reach(w, v) && Reach(v, u)
    ensures Reach(w, u)
  {
    var first: seq<Action> :| Run(w, first) == v;
    var rest: seq<Action> :| Run(v, rest) == u;
    RunJoin(w, first, rest);
  }

  lemma ReachKeepsInv(w: World, v: World)
    requires Inv(w) && Reach(w, v)
    ensures Inv(v)
  {
    var actions: seq<Action> :| Run(w, actions) == v;
    RunKeepsInv(w, actions);
  }

  /** What one process may rely on while the others act: its own place, and what its log already held. */
  predicate Undisturbed(w: World, v: World, pid: nat) {
    && pid in w.procs && pid in v.procs && v.procs[pid] == w.procs[pid]
    && forall x :: x in Log(w, w.procs[pid].request.transaction.portal) ==> x in Log(v, w.procs[pid].request.transaction.portal)
  }

  lemma UndisturbedSelf(w: World, pid: nat)
    requires pid in w.procs
    ensures Undisturbed(w, w, pid)
  {
  }

  lemma UndisturbedOn(w: World, v: World, u: World, pid: nat)
    requires Undisturbed(w, v, pid) && Undisturbed(v, u, pid)
    ensures Undisturbed(w, u, pid)
  {
  }

  predicate ActsFor(action: Action, pid: nat) {
    action.Act? && action.pid == pid
  }

  lemma OthersDoNotDisturb(w: World, action: Action, pid: nat)
    requires pid in w.procs && !ActsFor(action, pid)
    ensures Undisturbed(w, Next(w, action), pid)
  {
  }

  /** The owner acts on the transaction's call, or forgets it. */
  predicate Handles(action: Action, t: Transaction) {
    (action.OwnerAppend? || action.OwnerDrop?) && action.transaction == t
  }

  lemma OnlyCallersAreRejected(w: World, process: Process, move: Move)
    requires Response(w, process, move).Some? && Response(w, process, move).value.call.Rejected?
    ensures process.phase.Calling?
  {
  }

  lemma OthersKeepCall(w: World, q: nat, move: Move, pid: nat)
    requires Inv(w) && pid in w.procs && w.procs[pid].phase.Calling? && w.procs[pid].request.transaction in w.pending
    requires q != pid
    ensures w.procs[pid].request.transaction in Next(w, Act(q, move)).pending
  {
    hide Inv, Response;
    if q in w.procs && Response(w, w.procs[q], move).Some? && Response(w, w.procs[q], move).value.call.Rejected? {
      OnlyCallersAreRejected(w, w.procs[q], move);
      if w.procs[q].request.transaction == w.procs[pid].request.transaction { MutualExclusion(w, pid, q); }
    }
  }

  /** Only the owner and the caller itself, who holds the lock, can settle a call. */
  lemma CallStaysPending(w: World, action: Action, pid: nat)
    requires Inv(w) && pid in w.procs && w.procs[pid].phase.Calling? && w.procs[pid].request.transaction in w.pending
    requires !ActsFor(action, pid) && !Handles(action, w.procs[pid].request.transaction)
    ensures w.procs[pid].request.transaction in Next(w, action).pending
  {
    hide Inv, Response;
    if action.Act? { OthersKeepCall(w, action.pid, action.move, pid); }
  }

  /** With no submission recorded, nothing was ever submitted or it was all explicitly rejected. */
  predicate NothingSubmitted(w: World, t: Transaction) {
    Idle(w, t) && w.unrejected[t] == 0 && w.pending[t] == 0 && Count(Log(w, t.portal), t) == 0
  }

  /** The answer is durable: an accepted one names the request's item in the rollout. */
  predicate Answers(w: World, request: Request, reply: Reply) {
    var t := request.transaction;
    reply.Sent? ==>
      && t in w.journal && w.journal[t] == RecordFor(request, Accepted(reply.message))
      && Holds(Log(w, t.portal), t, request.text, reply.message)
  }

  lemma DoneAnswers(w: World, pid: nat)
    requires Inv(w) && pid in w.procs && w.procs[pid].phase.Done?
    ensures Answers(w, w.procs[pid].request, w.procs[pid].phase.reply)
  {
    assert ProcessOk(w, pid) && RecordOk(w, w.procs[pid].request.transaction);
  }

  lemma LockStep(w: World, pid: nat)
    requires pid in w.procs && w.procs[pid].phase.Waiting? && w.procs[pid].request.transaction.portal !in w.locks
    ensures var Process(request, phase) := w.procs[pid];
      Next(w, Act(pid, Go)) == World(w.rollout, w.pending, w.unrejected, w.journal, w.locks[request.transaction.portal := pid],
                                     w.procs[pid := Process(request, Locked(phase.seen))])
  {
  }

  lemma SubmitStep(w: World, pid: nat)
    requires pid in w.procs && w.procs[pid].phase.Recorded?
    ensures var request := w.procs[pid].request; var t := request.transaction;
      Next(w, Act(pid, Go)) == World(w.rollout, w.pending + multiset{t}, w.unrejected + multiset{t}, w.journal, w.locks,
                                     w.procs[pid := Process(request, Calling)])
  {
    assert Response(w, w.procs[pid], Go) == Some(Effect(Some(Calling), None, Made));
  }

  lemma RejectStep(w: World, pid: nat)
    requires pid in w.procs && w.procs[pid].phase.Calling? && w.procs[pid].request.transaction in w.pending
    ensures var request := w.procs[pid].request; var t := request.transaction;
      Next(w, Act(pid, Refuse)) == World(w.rollout, w.pending - multiset{t}, w.unrejected - multiset{t}, w.journal, w.locks,
                                         w.procs[pid := Process(request, Refused)])
  {
    assert Response(w, w.procs[pid], Refuse) == Some(Effect(Some(Refused), None, Rejected));
  }

  lemma MatchesFrom(messages: seq<Item>, request: Request, i: nat)
    requires i < |messages|
    ensures Matches(messages[i..], request) ==
      (if IsMatch(messages[i], request) then [messages[i]] else []) + Matches(messages[i + 1..], request)
  {
    assert messages[i..][1..] == messages[i + 1..];
  }

  /**
   What becomes of an attempt outside the adapter: the task is archived, oversized or without an
   owner; something fails before or after the attempt is recorded; the owner declines the call
   explicitly; or the call returns.
   */
  datatype Fate = Unroutable | Broken(recorded: bool) | Declined | Answered

  /** How the first read of the rollout goes. */
  datatype First = Oversized | Unreadable | Legible

  /**
   What a call of send meets and does not decide itself. quiet: no read races the rollout's writer,
   so each returns all of it; readable: how many looks succeed before one fails.
   */
  datatype Course = Course(first: First, fate: Fate, readable: nat, quiet: bool)

  const LOOKS: nat := 20

  /** What one read of the rollout says: a single match is the request's item. */
  function Seen(messages: seq<Item>, request: Request): Option<nat> {
    if |Matches(messages, request)| == 1 then Some(Matches(messages, request)[0].id) else None
  }

  /** The message at k, and no other, carries the request's client id and text as the user's. */
  predicate OnlyAnswer(messages: seq<Item>, request: Request, k: nat) {
    && k < |messages|
    && forall j :: 0 <= j < |messages| ==>
         (j == k <==> messages[j].client == Some(request.transaction) && messages[j].user && messages[j].text == request.text)
  }

  /** So it is the one message that is the request's item, if there is exactly one. */
  lemma SeenExactly(messages: seq<Item>, request: Request, message: nat)
    ensures Seen(messages, request) == Some(message)
      <==> exists k: nat :: OnlyAnswer(messages, request, k) && messages[k].id == message
  {
    if Seen(messages, request) == Some(message) {
      var k := SoleMatch(messages, request);
    }
    if k: nat :| OnlyAnswer(messages, request, k) && messages[k].id == message {
      MatchesSole(messages, request, k);
    }
  }

  lemma {:induction false} SoleMatch(messages: seq<Item>, request: Request) returns (k: nat)
    requires |Matches(messages, request)| == 1
    ensures OnlyAnswer(messages, request, k) && messages[k] == Matches(messages, request)[0]
  {
    MatchesAre(messages[1..], request);
    if IsMatch(messages[0], request) {
      assert Matches(messages[1..], request) == [];
      forall j | 0 < j < |messages| ensures !IsMatch(messages[j], request) {
        assert messages[j] == messages[1..][j - 1];
      }
      return 0;
    }
    var i := SoleMatch(messages[1..], request);
    assert forall j :: 0 < j < |messages| ==> messages[j] == messages[1..][j - 1];
    return i + 1;
  }

  lemma {:induction false} NoMatches(messages: seq<Item>, request: Request)
    requires forall x :: x in messages ==> !IsMatch(x, request)
    ensures Matches(messages, request) == []
  {
    if messages != [] { NoMatches(messages[1..], request); }
  }

  lemma {:induction false} MatchesSole(messages: seq<Item>, request: Request, k: nat)
    requires OnlyAnswer(messages, request, k)
    ensures Matches(messages, request) == [messages[k]]
  {
    assert forall j :: 0 < j < |messages| ==> messages[j] == messages[1..][j - 1];
    if k == 0 {
      forall x | x in messages[1..] ensures !IsMatch(x, request) {
        var i :| 0 <= i < |messages[1..]| && messages[1..][i] == x;
        assert messages[i + 1] == x;
      }
      NoMatches(messages[1..], request);
    } else {
      MatchesSole(messages[1..], request, k - 1);
    }
  }

  /** What was read of the rollout, and when. */
  datatype Sight = Sight(world: World, messages: seq<Item>)

  /** The messages are some of those in the log, and with no race all of them. */
  predicate ReadFrom(messages: seq<Item>, log: seq<Item>, quiet: bool) {
    (forall x :: x in messages ==> x in log) && (quiet ==> messages == log)
  }

  /** The process was looking for its item, and read this. */
  predicate Looked(sight: Sight, pid: nat, request: Request, quiet: bool) {
    && pid in sight.world.procs && sight.world.procs[pid] == Process(request, Polling)
    && ReadFrom(sight.messages, Log(sight.world, request.transaction.portal), quiet)
  }

  /** On the way from one world to another the process looked these times, in this order. */
  ghost predicate Trail(from: World, looks: seq<Sight>, to: World, pid: nat, request: Request, quiet: bool) {
    if looks == [] then Reach(from, to)
    else
      var last := looks[|looks| - 1];
      && Trail(from, looks[..|looks| - 1], last.world, pid, request, quiet)
      && Looked(last, pid, request, quiet) && Reach(last.world, to)
  }

  lemma TrailNone(from: World, to: World, pid: nat, request: Request, quiet: bool)
    requires Reach(from, to)
    ensures Trail(from, [], to, pid, request, quiet)
  {
  }

  lemma TrailOn(from: World, looks: seq<Sight>, v: World, u: World, pid: nat, request: Request, quiet: bool)
    requires Trail(from, looks, v, pid, request, quiet) && Reach(v, u)
    ensures Trail(from, looks, u, pid, request, quiet)
  {
    hide Reach;
    ReachOn(if looks == [] then from else looks[|looks| - 1].world, v, u);
  }

  lemma TrailPush(from: World, looks: seq<Sight>, sight: Sight, to: World, pid: nat, request: Request, quiet: bool)
    requires Trail(from, looks, sight.world, pid, request, quiet)
    requires Looked(sight, pid, request, quiet) && Reach(sight.world, to)
    ensures Trail(from, looks + [sight], to, pid, request, quiet)
  {
    assert (looks + [sight])[..|looks|] == looks;
  }

  /** The answer of the looks: that of the last, or uncertain after twenty or an unreadable one. */
  predicate Concludes(looks: seq<Sight>, request: Request, readable: nat, reply: Reply) {
    && (forall k :: 0 <= k < |looks| - 1 ==> Seen(looks[k].messages, request) == None)
    && match reply
       case Sent(message) =>
         0 < |looks| <= 20 && |looks| <= readable && Seen(looks[|looks| - 1].messages, request) == Some(message)
       case Uncertain =>
         && |looks| == (if readable < 20 then readable else 20)
         && (looks != [] ==> Seen(looks[|looks| - 1].messages, request) == None)
       case Unsent => false
  }

  /** The attempt is recorded, made, and not rejected. */
  predicate Outstanding(w: World, request: Request) {
    Attempting(w, request) && w.unrejected[request.transaction] == 1
  }

  /** What an attempt comes to, and the record it leaves. */
  predicate Fits(w: World, course: Course, request: Request, looks: seq<Sight>, reply: Reply) {
    var t := request.transaction;
    match course.fate
    case Unroutable => reply == Unsent && Idle(w, t)
    case Broken(recorded) => reply == Uncertain && if recorded then Outstanding(w, request) else Idle(w, t)
    case Declined => reply == Unsent && t in w.journal && w.journal[t] == RecordFor(request, NotSent)
    case Answered => Concludes(looks, request, course.readable, reply) && (reply.Uncertain? ==> Outstanding(w, request))
  }

  /**
   What send_locked answers, by the record found under the lock: there is none, or the same
   request was refused, and it is attempted; it is another request's; it was accepted; or it
   was submitted, and only a single match among the messages read settles it.
   */
  predicate Decided(found: World, w: World, course: Course, request: Request, messages: seq<Item>, looks: seq<Sight>, reply: Reply) {
    var t := request.transaction;
    if t !in found.journal then Fits(w, course, request, looks, reply)
    else
      var record := found.journal[t];
      if record.account != request.account || record.text != request.text
      then reply == Uncertain && w.journal == found.journal
      else match record.status
        case NotSent => Fits(w, course, request, looks, reply)
        case Accepted(message) => reply == Sent(message) && w.journal == found.journal
        case Submitting =>
          if Seen(messages, request).Some? then reply == Sent(Seen(messages, request).value)
          else reply == Uncertain && w.journal == found.journal
  }

  class Machine {
    var rollout: map<nat, seq<Item>>
    var pending: multiset<Transaction>
    var unrejected: multiset<Transaction>
    var journal: map<Transaction, Record>
    var locks: map<nat, nat>
    var procs: map<nat, Process>

    function Now(): World
      reads this
    {
      World(rollout, pending, unrejected, journal, locks, procs)
    }

    constructor ()
      ensures Fresh(Now()) && procs == map[]
    {
      rollout, pending, unrejected := map[], multiset{}, multiset{};
      journal, locks, procs := map[], map[], map[];
    }

    /**
     Between two steps of a process: any number of steps of anyone else. While the owner is
     declining the process's call it neither acts on it nor forgets it.
     */
    method Interfere(pid: nat, declining: bool)
      requires pid in procs
      requires declining ==> Inv(Now()) && procs[pid].phase.Calling? && procs[pid].request.transaction in pending
      modifies this
      ensures Reach(old(Now()), Now()) && Undisturbed(old(Now()), Now(), pid)
      ensures declining ==> procs[pid].request.transaction in pending
    {
      hide Next, Inv, Undisturbed;
      ReachSelf(Now());
      UndisturbedSelf(Now(), pid);
      var rounds: nat := *;
      while rounds > 0
        invariant Reach(old(Now()), Now()) && pid in procs && Undisturbed(old(Now()), Now(), pid)
        invariant declining ==> Inv(Now()) && procs[pid].phase.Calling? && procs[pid].request.transaction in pending
      {
        var action: Action := *;
        if !ActsFor(action, pid) && !(declining && Handles(action, procs[pid].request.transaction)) {
          ghost var before := Now();
          var next := Next(Now(), action);
          if declining {
            CallStaysPending(before, action, pid);
            NextKeepsInv(before, action);
          }
          rollout, pending, unrejected := next.rollout, next.pending, next.unrejected;
          journal, locks, procs := next.journal, next.locks, next.procs;
          OthersDoNotDisturb(before, action, pid);
          UndisturbedOn(old(Now()), before, Now(), pid);
          ReachStep(old(Now()), before, action, Now());
        }
        rounds := rounds - 1;
      }
    }

    /** One step with no durable effect of its own. */
    method GoTo(pid: nat, phase: Phase, ghost move: Move)
      requires pid in procs && Response(Now(), procs[pid], move) == To(phase)
      requires Holding(phase) == Holding(procs[pid].phase)
      modifies `procs
      ensures Now() == Next(old(Now()), Act(pid, move)) && procs == old(procs)[pid := Process(old(procs[pid].request), phase)]
    {
      procs := procs[pid := Process(procs[pid].request, phase)];
    }

    /** Reading the rollout: all of it as it stands, or with a race some of the messages in it. */
    method ReadThread(portal: nat, quiet: bool) returns (messages: seq<Item>)
      ensures ReadFrom(messages, Log(Now(), portal), quiet)
    {
      var log := if portal in rollout then rollout[portal] else [];
      if quiet { return log; }
      messages := *;
      if exists x :: x in messages && x !in log { messages := log; }
    }

    /** atomic_record: the journal file is replaced, and so is the process's place. */
    method AtomicRecord(pid: nat, status: Status, phase: Phase, ghost move: Move)
      requires pid in procs && Response(Now(), procs[pid], move) == Some(Effect(Some(phase), Some(status), Unchanged))
      requires Holding(procs[pid].phase)
      modifies `journal, `procs, `locks
      ensures Now() == Next(old(Now()), Act(pid, move)) && pid in procs && procs[pid] == Process(old(procs[pid].request), phase)
    {
      var request := procs[pid].request;
      journal := journal[request.transaction := Record(request.account, request.text, status)];
      if !Holding(phase) { locks := locks - {request.transaction.portal}; }
      procs := procs[pid := Process(request, phase)];
    }

    /** Leaving, with or without the task lock. */
    method Leave(pid: nat, reply: Reply, ghost move: Move)
      requires pid in procs && Response(Now(), procs[pid], move) == Exit(reply)
      modifies `procs, `locks
      ensures Now() == Next(old(Now()), Act(pid, move)) && pid in procs && procs[pid] == Process(old(procs[pid].request), Done(reply))
    {
      var Process(request, phase) := procs[pid];
      if Holding(phase) { locks := locks - {request.transaction.portal}; }
      procs := procs[pid := Process(request, Done(reply))];
    }

    /** The request is handed to the owner, who may act on it from now on. */
    method Submit(pid: nat)
      requires pid in procs && procs[pid].phase.Recorded?
      modifies `pending, `unrejected, `procs
      ensures Now() == Next(old(Now()), Act(pid, Go)) && pid in procs && procs[pid] == Process(old(procs[pid].request), Calling)
      ensures procs[pid].request.transaction in pending
    {
      hide Next;
      SubmitStep(Now(), pid);
      var request := procs[pid].request;
      pending := pending + multiset{request.transaction};
      unrejected := unrejected + multiset{request.transaction};
      procs := procs[pid := Process(request, Calling)];
    }

    /** The owner says explicitly that it did nothing with the request, and never will. */
    method Reject(pid: nat)
      requires pid in procs && procs[pid].phase.Calling? && procs[pid].request.transaction in pending
      modifies `pending, `unrejected, `procs
      ensures Now() == Next(old(Now()), Act(pid, Refuse)) && pid in procs && procs[pid] == Process(old(procs[pid].request), Refused)
    {
      hide Next;
      RejectStep(Now(), pid);
      var request := procs[pid].request;
      pending := pending - multiset{request.transaction};
      unrejected := unrejected - multiset{request.transaction};
      procs := procs[pid := Process(request, Refused)];
    }

    /** The messages carrying the request's client id, user role and text. */
    method Matching(messages: seq<Item>, request: Request) returns (matches: seq<Item>)
      ensures matches == Matches(messages, request)
    {
      matches := [];
      var i := 0;
      while i < |messages|
        invariant i <= |messages| && matches + Matches(messages[i..], request) == Matches(messages, request)
      {
        var m := messages[i];
        MatchesFrom(messages, request, i);
        if m.client == Some(request.transaction) && m.user && m.text == request.text {
          matches := matches + [m];
        }
        i := i + 1;
      }
    }

    /** What came of a machine step: the run goes on from where it was. */
    ghost predicate Stands(start: World, pid: nat, request: Request, phase: Phase)
      reads this
    {
      Inv(Now()) && Reach(start, Now()) && pid in procs && procs[pid] == Process(request, phase)
    }

    lemma Stepped(start: World, before: World, pid: nat, request: Request, phase: Phase, move: Move)
      requires Inv(before) && Reach(start, before) && Now() == Next(before, Act(pid, move))
      requires pid in procs && procs[pid] == Process(request, phase)
      ensures Stands(start, pid, request, phase)
    {
      ReachStep(start, before, Act(pid, move), Now());
      NextKeepsInv(before, Act(pid, move));
    }

    method Wait(pid: nat, ghost start: World, ghost request: Request, ghost phase: Phase)
      requires Stands(start, pid, request, phase)
      modifies this
      ensures Stands(start, pid, request, phase)
    {
      ghost var before := Now();
      Interfere(pid, false);
      ReachOn(start, before, Now());
      ReachKeepsInv(before, Now());
    }

    method Step(pid: nat, phase: Phase, ghost move: Move, ghost start: World, ghost request: Request, ghost was: Phase)
      requires Stands(start, pid, request, was)
      requires Response(Now(), procs[pid], move) == To(phase) && Holding(phase) == Holding(was)
      modifies this
      ensures Stands(start, pid, request, phase)
    {
      ghost var before := Now();
      GoTo(pid, phase, move);
      Stepped(start, before, pid, request, phase, move);
      Wait(pid, start, request, phase);
    }

    method Finish(pid: nat, reply: Reply, ghost move: Move, ghost start: World, ghost request: Request, ghost was: Phase)
      requires Stands(start, pid, request, was) && Response(Now(), procs[pid], move) == Exit(reply)
      modifies this
      ensures Stands(start, pid, request, Done(reply)) && journal == old(journal)
      ensures was.Ready? ==> NothingSubmitted(Now(), request.transaction)
      ensures was.Calling? || was.Polling? ==> Outstanding(Now(), request)
    {
      ghost var before := Now();
      assert ProcessOk(Now(), pid);
      Leave(pid, reply, move);
      Stepped(start, before, pid, request, Done(reply), move);
      if was.Ready? { IdleMeansNone(Now(), request.transaction); }
    }

    /** The journal is written, and with the last write of a run the lock is released. */
    method Write(pid: nat, status: Status, phase: Phase, ghost move: Move, ghost start: World, ghost request: Request, ghost was: Phase)
      requires Stands(start, pid, request, was) && Holding(was)
      requires Response(Now(), procs[pid], move) == Some(Effect(Some(phase), Some(status), Unchanged))
      modifies this
      ensures Stands(start, pid, request, phase)
      ensures var t := request.transaction; t in journal && journal[t] == RecordFor(request, status)
      ensures status.NotSent? ==> NothingSubmitted(Now(), request.transaction)
    {
      ghost var before := Now();
      AtomicRecord(pid, status, phase, move);
      Stepped(start, before, pid, request, phase, move);
      if status.NotSent? { IdleMeansNone(Now(), request.transaction); }
    }

    /** Finding the one item that answers the request, and recording the acceptance. */
    method Accept(pid: nat, message: nat, ghost move: Move, ghost start: World, ghost request: Request, ghost was: Phase)
      requires Stands(start, pid, request, was) && Holding(was)
      requires Response(Now(), procs[pid], move) == To(Matched(message))
      modifies this
      ensures Stands(start, pid, request, Done(Sent(message)))
    {
      hide Next, Inv, Reach;
      Step(pid, Matched(message), move, start, request, was);
      Write(pid, Accepted(message), Done(Sent(message)), Go, start, request, Matched(message));
    }

    /** The call returns, fails or is declined; only a decline is explicit and means the owner did nothing. */
    method Call(pid: nat, declined: bool, ghost start: World, ghost request: Request)
      requires Stands(start, pid, request, Recorded)
      modifies this
      ensures Stands(start, pid, request, if declined then Refused else Calling)
    {
      hide Next, Reach;
      ghost var before := Now();
      Submit(pid);
      Stepped(start, before, pid, request, Calling, Go);
      before := Now();
      Interfere(pid, declined);
      ReachOn(start, before, Now());
      ReachKeepsInv(before, Now());
      if !declined { return; }
      before := Now();
      Reject(pid);
      Stepped(start, before, pid, request, Refused, Refuse);
      Wait(pid, start, request, Refused);
    }

    /** Reads the rollout once; exactly one match is acceptance. */
    method Look(pid: nat, request: Request, quiet: bool, ghost start: World) returns (message: Option<nat>, ghost sight: Sight)
      requires Stands(start, pid, request, Polling)
      modifies this
      ensures Stands(start, pid, request, if message.Some? then Done(Sent(message.value)) else Polling)
      ensures sight.world == old(Now()) && Looked(sight, pid, request, quiet) && Reach(sight.world, Now())
      ensures message == Seen(sight.messages, request)
    {
      ghost var before := Now();
      ReachSelf(before);
      var read := ReadThread(request.transaction.portal, quiet);
      sight := Sight(before, read);
      var matches := Matching(read, request);
      if |matches| != 1 { return None, sight; }
      Accept(pid, matches[0].id, Journal.Look(read), before, request, Polling);
      ReachOn(start, before, Now());
      return Some(matches[0].id), sight;
    }

    /** After the call: look for the item, twenty times. An unreadable rollout is reported as uncertain. */
    method Poll(pid: nat, request: Request, course: Course, ghost start: World) returns (reply: Reply, ghost looks: seq<Sight>)
      requires Stands(start, pid, request, Polling)
      modifies this
      ensures Stands(start, pid, request, Done(reply)) && Trail(start, looks, Now(), pid, request, course.quiet)
      ensures Concludes(looks, request, course.readable, reply) && (reply.Uncertain? ==> Outstanding(Now(), request))
    {
      hide Next, Inv, Reach, Trail, Looked, Seen, Outstanding;
      looks := [];
      TrailNone(start, Now(), pid, request, course.quiet);
      for i := 0 to LOOKS
        invariant Stands(start, pid, request, Polling) && Trail(start, looks, Now(), pid, request, course.quiet)
        invariant |looks| == i <= course.readable && forall k :: 0 <= k < i ==> Seen(looks[k].messages, request) == None
      {
        ghost var before := Now();
        if i == course.readable {
          GiveUp(pid, start, request, looks, course.quiet);
          return Uncertain, looks;
        }
        Rest(pid, start, request, looks, course.quiet);
        before := Now();
        var message, seen := Look(pid, request, course.quiet, start);
        TrailPush(start, looks, seen, Now(), pid, request, course.quiet);
        looks := looks + [seen];
        if message.Some? { return Sent(message.value), looks; }
      }
      GiveUp(pid, start, request, looks, course.quiet);
      return Uncertain, looks;
    }

    /** Between two looks. */
    method Rest(pid: nat, ghost start: World, ghost request: Request, ghost looks: seq<Sight>, ghost quiet: bool)
      requires Stands(start, pid, request, Polling) && Trail(start, looks, Now(), pid, request, quiet)
      modifies this
      ensures Stands(start, pid, request, Polling) && Trail(start, looks, Now(), pid, request, quiet)
    {
      hide Next, Inv, Reach, Trail;
      ghost var before := Now();
      ReachSelf(before);
      Wait(pid, before, request, Polling);
      ReachOn(start, before, Now());
      TrailOn(start, looks, before, Now(), pid, request, quiet);
    }

    /** The looks are over: nothing more is written. */
    method GiveUp(pid: nat, ghost start: World, ghost request: Request, ghost looks: seq<Sight>, ghost quiet: bool)
      requires Stands(start, pid, request, Polling) && Trail(start, looks, Now(), pid, request, quiet)
      modifies this
      ensures Stands(start, pid, request, Done(Uncertain)) && Trail(start, looks, Now(), pid, request, quiet)
      ensures Outstanding(Now(), request)
    {
      hide Next, Inv, Reach, Trail, Outstanding;
      ghost var before := Now();
      ReachSelf(before);
      Finish(pid, Uncertain, Fail, before, request, Polling);
      ReachOn(start, before, Now());
      TrailOn(start, looks, before, Now(), pid, request, quiet);
    }

    /** A new attempt, with the lock held and nothing recorded: record first, then call. */
    method Attempt(pid: nat, request: Request, course: Course, ghost start: World) returns (reply: Reply, ghost looks: seq<Sight>)
      requires Stands(start, pid, request, Ready)
      modifies this
      ensures Stands(start, pid, request, Done(reply)) && Trail(start, looks, Now(), pid, request, course.quiet)
      ensures reply.Unsent? ==> NothingSubmitted(Now(), request.transaction)
      ensures Fits(Now(), course, request, looks, reply)
    {
      hide Next, Inv, Reach, Outstanding;
      looks := [];
      if course.fate.Unroutable? {
        Finish(pid, Unsent, Refuse, start, request, Ready);
        return Unsent, [];
      }
      if course.fate == Broken(false) {
        Finish(pid, Uncertain, Fail, start, request, Ready);
        return Uncertain, [];
      }
      Write(pid, Submitting, Recorded, Go, start, request, Ready);
      Wait(pid, start, request, Recorded);
      reply, looks := SubmitAndWait(pid, request, course, start);
    }

    /** The record is durable: call the owner, and then look for the item. */
    method SubmitAndWait(pid: nat, request: Request, course: Course, ghost start: World) returns (reply: Reply, ghost looks: seq<Sight>)
      requires Stands(start, pid, request, Recorded) && !course.fate.Unroutable? && course.fate != Broken(false)
      modifies this
      ensures Stands(start, pid, request, Done(reply)) && Trail(start, looks, Now(), pid, request, course.quiet)
      ensures reply.Unsent? ==> NothingSubmitted(Now(), request.transaction)
      ensures Fits(Now(), course, request, looks, reply)
    {
      hide Next, Inv, Reach, Outstanding;
      looks := [];
      Call(pid, course.fate.Declined?, start, request);
      if course.fate.Declined? {
        Write(pid, NotSent, Done(Unsent), Go, start, request, Refused);
        return Unsent, [];
      }
      if course.fate.Broken? {
        Finish(pid, Uncertain, Fail, start, request, Calling);
        return Uncertain, [];
      }
      Step(pid, Polling, Go, start, request, Calling);
      reply, looks := Poll(pid, request, course, start);
    }

    /** send_locked: the journal decides whether to answer, to reconcile or to attempt. */
    method SendLocked(pid: nat, request: Request, messages: seq<Item>, course: Course, ghost start: World)
      returns (reply: Reply, ghost looks: seq<Sight>)
      requires Stands(start, pid, request, Locked(messages))
      modifies this
      ensures Stands(start, pid, request, Done(reply)) && Trail(start, looks, Now(), pid, request, course.quiet)
      ensures reply.Unsent? ==> NothingSubmitted(Now(), request.transaction)
      ensures Decided(old(Now()), Now(), course, request, messages, looks, reply)
    {
      hide Next, Inv, Reach, Fits;
      looks := [];
      var t := request.transaction;
      if t in journal && (journal[t].account != request.account || journal[t].text != request.text) {
        Finish(pid, Uncertain, Go, start, request, Locked(messages));
        return Uncertain, [];
      }
      if t in journal && !journal[t].status.NotSent? {
        if journal[t].status.Accepted? {
          reply := Sent(journal[t].status.message);
          Finish(pid, reply, Go, start, request, Locked(messages));
          return;
        }
        var matches := Matching(messages, request);
        if |matches| != 1 {
          Finish(pid, Uncertain, Go, start, request, Locked(messages));
          return Uncertain, [];
        }
        Accept(pid, matches[0].id, Go, start, request, Locked(messages));
        return Sent(matches[0].id), [];
      }
      Step(pid, Ready, Go, start, request, Locked(messages));
      reply, looks := Attempt(pid, request, course, start);
    }

    /** The task lock, once no one else holds it. */
    method Lock(pid: nat, seen: seq<Item>, ghost start: World, ghost request: Request)
      requires Stands(start, pid, request, Waiting(seen)) && procs[pid].request.transaction.portal !in locks
      modifies this
      ensures Stands(start, pid, request, Locked(seen))
    {
      hide Next;
      ghost var before := Now();
      LockStep(before, pid);
      locks := locks[procs[pid].request.transaction.portal := pid];
      procs := procs[pid := Process(procs[pid].request, Locked(seen))];
      Stepped(start, before, pid, request, Locked(seen), Go);
      Wait(pid, start, request, Locked(seen));
    }

    /**
     send: the rollout is read and its size checked before the lock is taken and the journal
     read; unless it came of that size check, not_sent means that nothing was submitted. found is the
     world in which send_locked begins. None means that the lock was not free in as many looks as
     patience allows.
     */
    method Send(pid: nat, request: Request, course: Course, patience: nat)
      returns (reply: Option<Reply>, messages: seq<Item>, ghost found: World, ghost looks: seq<Sight>)
      requires Inv(Now()) && pid in procs && procs[pid] == Process(request, Opening)
      modifies this
      ensures Inv(Now()) && Reach(old(Now()), Now()) && pid in procs
      ensures reply.Some? ==> procs[pid] == Process(request, Done(reply.value)) && Answers(Now(), request, reply.value)
      ensures course.first.Oversized? ==> reply == Some(Unsent) && journal == old(journal)
      ensures course.first.Unreadable? ==> reply == Some(Uncertain) && journal == old(journal)
      ensures course.first.Legible? ==> ReadFrom(messages, old(Log(Now(), request.transaction.portal)), course.quiet)
      ensures course.first.Legible? && reply.None? ==>
        request.transaction.portal in locks && procs[pid] == Process(request, Waiting(messages))
      ensures course.first.Legible? && reply.Some? ==>
        && Reach(old(Now()), found) && pid in found.procs && found.procs[pid] == Process(request, Locked(messages))
        && Trail(found, looks, Now(), pid, request, course.quiet)
        && Decided(found, Now(), course, request, messages, looks, reply.value)
        && (reply.value.Unsent? ==> NothingSubmitted(Now(), request.transaction))
    {
      hide Next, Inv, Reach, Trail, Decided;
      ghost var start := Now();
      ReachSelf(start);
      messages, found, looks := [], start, [];
      if course.first.Oversized? {
        Finish(pid, Unsent, Refuse, start, request, Opening);
        return Some(Unsent), [], found, [];
      }
      if course.first.Unreadable? {
        Finish(pid, Uncertain, Fail, start, request, Opening);
        return Some(Uncertain), [], found, [];
      }
      messages := ReadThread(request.transaction.portal, course.quiet);
      Step(pid, Waiting(messages), Journal.Look(messages), start, request, Opening);
      var left := patience;
      while left > 0 && request.transaction.portal in locks
        invariant Stands(start, pid, request, Waiting(messages))
      {
        Wait(pid, start, request, Waiting(messages));
        left := left - 1;
      }
      if request.transaction.portal in locks { return None, messages, found, []; }
      Lock(pid, messages, start, request);
      found := Now();
      ReachSelf(found);
      var answer;
      answer, looks := SendLocked(pid, request, messages, course, found);
      ReachOn(start, found, Now());
      DoneAnswers(Now(), pid);
      return Some(answer), messages, found, looks;
    }
  }
}
