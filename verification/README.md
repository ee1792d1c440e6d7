# Crash-safe delivery between Matrix and its sources, modelled and proved in Dafny

This project models the part of the ChatGPT/Codex–Matrix bridge that must survive crashes, lost
acknowledgements and competing processes, and proves what it is for: a reply typed in Matrix is
submitted at most once and never echoed back, and a room converges to its source whatever failed on
the way. The algorithms that delivery depends on (message splitting, writing containers, rollout
parsing, framing, the bounded active set, snapshot hydration, transaction rewriting) are modelled and
proved beside it.

`dafny verify dfyconfig.toml` checks everything.

## How it is organised

State machines come first, as pure functions from state and step to state, and the theorems are about
all their runs. The imperative code is modelled as classes and methods with the source's own branches
and loops, each proved to be a run of the machine or to compute the function the theorems speak of.

| modules | what they hold |
|---|---|
| Journal, JournalSafety, AdapterCode | the local-task adapter: journal, task lock, owner calls, append-only rollout; any number of processes, each of which may die between two steps |
| Outbound, OutboundSafety, OutboundRecovery, OutboundEcho, ClientCode | the bridge's outbox and row store on top of the adapter: handlers, recovery, restarts, store failures |
| Mirror, MirrorResume, MirrorEvents, MirrorExact, MirrorConverge | the inbound mirror with edits on: what each event does, cut-off dispatches, when a dispatch succeeds and what it shows, convergence |
| MirrorPlain, MirrorOff, MirrorOffExact | the same with edits off: how rows are judged, cut-off dispatches, when one succeeds and what it shows |
| MirrorRoom, MirrorRuns, MirrorLives, MirrorOrder, MirrorCode | either setting of `sync_edits`: a room with its checkpoints, skipped versions, branch notices, lives that change the setting, the order of what is sent, and the code itself |
| Rollout, RolloutRaces, Feed | parsing a growing log, reads that race its writer, and the optimistic read of a live file |
| Frames | the length-prefixed desktop socket and its calls |
| Writing, Splitting | `:::writing` containers and oversized messages |
| ActiveSet, Snapshot, Transport | the two-lane active set, snapshot validation and hydration, transaction rewriting |

## What is assumed

- Digests and hashed identifiers are injective: `StableID`, portal, message and transaction ids are the
  tuples they hash, a transaction determines its conversation, and the 32-digit client id sent to the
  owner stands for its transaction.
- The homeserver answers a repeated (room, transaction) with the earlier event. The bridge framework,
  given a message event, loads all rows with its id; with none it sends and inserts; otherwise it calls
  the handler, then updates the rows the handler changed, then sends and inserts if told to go on.
- The four owner errors listed at `scripts/codex_source.py:425` mean that the owner did nothing and will
  do nothing. Any other call may append at most one user item carrying its client id, at any later time.
- What the adapter meets and does not decide is an input of AdapterCode (`Course`): how its first read goes, what
  becomes of an attempt, how many looks are readable, whether reads race a writer. Between any two of its steps the
  others may do anything.
- In ClientCode, `calm` means that no store operation fails and no recovery of the room runs outside the queue; a
  reply is new if its event has no row and is not the outbox's entry. The worlds in which an answer was heard are
  given as ghost results.
- Portal handlers are serialized, as `pkg/connector/outbound.go:24` says. The recovery call at
  `pkg/connector/connector.go:178` is made outside a handler and is modelled as such. The outbound theorems
  cover every run in which it does not overlap the handling of a reply in the same room; whatever else it
  overlaps is allowed, in the handlers of ClientCode as well, and OutboundEcho says exactly what an overlap
  costs.
- Outbound theorems are about text replies and tasks with paginated history, whose user items keep their
  client id.
- A rollout grows by whole JSON lines, possibly seen unfinished; a proper prefix of a line does not decode,
  except for a line that lacks only its line feed. RolloutRaces.RacingReadBegins also takes it that no other
  fragment of a line says a message and that no two lines say the same id; RolloutRaces.BeginsExactly takes
  nothing of the kind. Every write changes the fingerprint, and fingerprints do
  not recur, so a fingerprint stands for a version of the file.
- Library code is a parameter: the decoding of a log line or of a frame, the classification of a line as
  opener, closer or code, the parsed HTML tree with its visible text and plain body, and the JSON size of a
  body, of at least one and at most six bytes a rune over a fixed frame. The two sources' conversations are told
  apart by the prefix of their ids. Timeouts become a bound on how often something is tried; all theorems hold for every bound.
- In MirrorCode, `fuse` is how many more durable operations will succeed before the next failure, crash or
  lost answer. Every theorem holds for every fuse.

## Where the code and its documentation disagree

- `pkg/connector/outbound.go:24` says portal event handling serializes outbox access. Skipping an unchanged
  conversation recovers the outbox outside the portal queue (`pkg/connector/connector.go:177-180`), and the user's
  own reply can then be sent back into the room in two ways: a recovery that begins while a reply is handled
  recovers the reply's own entry a second time (OutboundEcho.EchoOutsideTheQueue), or a reply whose handling
  begins during a recovery has its entry deleted by it (OutboundEcho.EchoBesideTheQueue). Runs are free of
  echoes exactly when neither overlap is allowed (OutboundEcho.EchoFreeExactlyWhenApart).
- `send` answers `not_sent` for an oversized rollout before the journal is read
  (`scripts/codex_source.py:345-346`), even for a transaction whose item is already there. Under the lock
  `not_sent` always means that nothing was submitted.
- `scripts/codex_source.py:115` skips an undecodable line because an append may be in progress. A reader that
  meets an unfinished line and reads on after it is finished loses that line but keeps later ones, so its
  messages do not begin those of a later read (Rollout.RacingReadLosesALine). They do exactly when nothing is
  heard behind a lost message (RolloutRaces.RacingReadBegins). The feed attaches no fingerprint to such a
  read, so it is read again.
- `pkg/connector/writing.go:16-17` promises that complete containers are converted. One is converted exactly when
  every opener before it is closed and fewer than sixteen containers enclose it (Writing.RenderedExactly): behind
  an opener that is never closed all stay as they are, since the search for that opener's closer takes the inner
  ones' (Writing.BehindUnclosedLeftRaw; Writing.CompleteContainerLeftRaw is the smallest text).
- A dispatch does not always come to succeed when it is retried. `pkg/connector/reconcile.go:76-77` refuses to edit an
  event this bridge did not send, so one of the user's own messages whose source then changes blocks its room for
  good (MirrorConverge.ForeignRowBlocks). A dispatch with edits on succeeds exactly when no row blocks it
  (MirrorExact.DispatchSucceeds), one with edits off exactly when no row is of another source or layout, or to be
  presented anew and someone else's (MirrorOffExact.OffSucceeds).
- Retries must keep to one revision of the source. An addition that Matrix accepted but whose row was not
  committed, and whose source then changes, ends with a row claiming the new content and an event showing the
  old (MirrorLives.LostCommitThenChange); so do two lost edits and a return to the first
  (MirrorLives.LostEditsThenReturn). After any life, a message is shown exactly when every request planned for it is
  new or was accepted for an event that shows the content anyway (MirrorLives.LivesShowExactly; with edits off,
  MirrorLives.LivesShowOffExactly).
- `pkg/connector/formatting.go:146` drops the edit generation that `pkg/connector/reconcile.go:79` relies on. After a
  presentation with edits off, the next edit, whatever its content, repeats a transaction exactly when an edit of
  that part with generation 1, that source and that content was ever accepted
  (MirrorLives.SwitchedEditShowsExactly, reached in MirrorLives.ReturnAfterSwitching).
- The transaction of a presentation names only its content (`pkg/connector/formatting.go:158-161`), so with edits off a
  return to earlier content is not shown (MirrorLives.ReturnWithEditsOff); MirrorOffExact.OffShowsExactly says
  when a part is.
- `internal/delivery/transport.go:46-49` replaces the last segment of the decoded and of the escaped path. They still
  agree exactly when the replaced transaction hid no escaped slash (Transport.OnlyTheTransaction).

## Model

| member | source | states |
|---|---|---|
| JournalSafety.AtMostOnce | scripts/codex_source.py:327-440 | over every run of any number of processes and the owner, with deaths between any two steps, a transaction has at most one rollout item, counting calls the owner may still act on, and at most one call not explicitly rejected |
| JournalSafety.CallFollowsRecord | scripts/codex_source.py:416-420 | a call is only ever made over a durable `submitting` record, with no unrejected call outstanding and no item in the rollout |
| JournalSafety.AcceptedForever | scripts/codex_source.py:374-376 | an accepted record is never rewritten, in any run |
| JournalSafety.OneAnswer | scripts/codex_source.py:374-382 | two accepted answers for a transaction, by any processes at any times, name the same message, which is the only one with the client id and has the request's text |
| JournalSafety.UnsentUnderLockMeansNothing | scripts/codex_source.py:388-430 | `not_sent` given under the task lock means no unrejected call, none the owner may still act on, and no item |
| JournalSafety.UnsentBeforeLockMeansLittle | scripts/codex_source.py:343-346 | for every request there is a run in which `send` answers `not_sent` by its size check although the request's item is in the rollout |
| JournalSafety.RefusedIsRetried | scripts/codex_source.py:372-376 | a refusal is not final: from any world in which the record says `not_sent` for this request and the task is free, another process with it can attempt it again and be accepted |
| JournalSafety.RefusedThenAccepted | scripts/codex_source.py:372-440 | for every request there is a run in which its first call is declined and its second accepted |
| JournalSafety.MatchesAre | scripts/codex_source.py:377-378 | a single match among the messages read is the request's own item, by client id, role and text |
| AdapterCode.SeenExactly | scripts/codex_source.py:377-378 | a message is found if and only if it, and no other of those read, carries the client id and text as the user's |
| JournalSafety.CountUnique | scripts/codex_source.py:435-436 | with at most one item for a client id, any two such items are the same item |
| JournalSafety.NextKeepsInv | scripts/codex_source.py:365-440 | every step of a process, the owner or another writer keeps the protocol's invariant: records, places, locks and log agree |
| AdapterCode.Machine.AtomicRecord | scripts/codex_source.py:490-502 | writing the journal file is one step of the machine, and moves the process on |
| AdapterCode.Machine.Matching | scripts/codex_source.py:377 | the loop over the messages finds exactly those with the client id, user role and text |
| AdapterCode.Machine.ReadThread | scripts/codex_source.py:343-344 | a read the writer does not race returns the whole log; any other, some of its messages |
| AdapterCode.Machine.Call | scripts/codex_source.py:419-426 | the call is a machine run; it ends in an explicit rejection if and only if the owner declines, which means it neither acts on the call nor forgets it |
| AdapterCode.Machine.Look | scripts/codex_source.py:434-438 | one look at the rollout while polling: a message is found exactly when a single one of those read matches, and then it is recorded as accepted; else the process keeps looking; with no race all of the log is read |
| AdapterCode.Machine.Poll | scripts/codex_source.py:433-440 | whatever the others do meanwhile, the answer is that of the first look that saw a single match, or uncertain after exactly twenty that did not, or after as many as were readable; each look was made in its own world on the way, in order; uncertain leaves the submission recorded and outstanding |
| AdapterCode.Machine.Attempt | scripts/codex_source.py:383-432 | a new attempt is a machine run whose answer and record follow from what became of it: unroutable, not sent and nothing recorded; broken, uncertain, recorded and outstanding if it was recorded; declined, not sent and recorded so; answered, what the looks conclude |
| AdapterCode.Machine.SubmitAndWait | scripts/codex_source.py:419-440 | from a durable record: a declined call is reported and recorded `not_sent`, with nothing submitted; a broken one is uncertain and stays outstanding; one that returned has the answer of the looks that follow |
| AdapterCode.Machine.SendLocked | scripts/codex_source.py:365-440 | the whole of `send_locked`, interleaved with anything the others may do: with no record, or one of the same request that says `not_sent`, a new attempt is made and its answer is that of the attempt; an accepted record is its answer; a submitting one is accepted exactly on a single match among the messages read, else uncertain; another request's is uncertain, and those leave the journal as it is |
| AdapterCode.Machine.Send | scripts/codex_source.py:327-362 | the whole of `send`: the size check and an unreadable rollout are answered before the journal is touched; otherwise the answer is the one `send_locked` gives for the journal found in the world in which the lock was taken and the messages read before, all of them if no writer raced; an accepted answer is recorded and its item is in the rollout; `not_sent` under the lock means nothing was submitted; no answer means that someone else holds the lock |
| AdapterCode.Machine.Interfere | scripts/codex_source.py:351-353 | any number of steps of anyone else form a run and leave the process its place and the log's items, and its call pending while the owner declines it |
| OutboundSafety.AtMostOncePerEvent | pkg/connector/outbound.go:171-240 | end to end: over every run of handlers, recoveries inside or outside the queue, restarts, adapter processes and the owner, a Matrix event has at most one rollout item |
| OutboundSafety.NoEcho | pkg/connector/outbound.go:275-289 | no run in which recovery outside the queue stays apart from replies in its room, whatever else it overlaps, ever sends to Matrix an item that came from a Matrix event |
| OutboundSafety.ItemsAreAccountedFor | pkg/connector/outbound.go:87-121 | over the same runs, every rollout item that came from a Matrix event is still the outbox's entry or has the row tying it to that event |
| OutboundSafety.NextKeepsInv | pkg/connector/outbound.go:90-137 | every step of every handler, of recovery outside the queue, of the adapter and of a restart keeps the invariant that ties outbox, rows, handlers and adapter together |
| OutboundSafety.ItemHasRow | pkg/connector/outbound.go:87-89 | an item of a Matrix event that is no longer pending has its row, with its text |
| OutboundSafety.SerializedIsApart | pkg/connector/outbound.go:24-26 | runs with every recovery inside the queue, as the comment assumes, are among those the theorems cover |
| OutboundEcho.EchoOutsideTheQueue | pkg/connector/connector.go:177-180 | for every reply there is a run, with one recovery outside the queue begun while it is handled, in which it is sent back into the room |
| OutboundEcho.EchoBesideTheQueue | pkg/connector/outbound.go:123-138 | for every reply there is a run in which a recovery outside the queue, already under way when its handling begins, deletes its entry, and it is sent back into the room |
| OutboundEcho.EchoFreeExactlyWhenApart | pkg/connector/outbound.go:24-26 | all runs are free of echoes if and only if neither overlap of a reply and a recovery outside the queue is allowed |
| OutboundRecovery.PausedRoom | pkg/connector/outbound.go:90-121 | as long as an entry is unresolved it is the entry it was, no source message is mirrored into its room (a branch notice, which is sent without recovery, may be), and only its own request is submitted there |
| OutboundRecovery.PausedStep | pkg/connector/outbound.go:217-240 | one step can leave an unresolved entry alone, give its event a row, or delete it after the backend said nothing was submitted; nothing else |
| OutboundRecovery.RecoveryAsksTheOriginal | pkg/connector/outbound.go:105-107 | recovery submits the original request, unchanged |
| OutboundRecovery.RecoverySettles | pkg/connector/outbound.go:108-121 | if the backend answers accepted and no store operation fails, recovery ends with the row stored and the outbox empty |
| OutboundRecovery.RecoveryAfterRow | pkg/connector/outbound.go:95-101 | after a crash between the row and the deletion, recovery empties the outbox without asking the backend |
| OutboundRecovery.BackendReconciles | scripts/codex_source.py:374-382 | a new process that finds a submitting record and its item in the rollout can go on to answer accepted with that item |
| ClientCode.Client.RecoverOutbound | pkg/connector/outbound.go:90-121 | amid everyone else's steps, another recovery outside the queue included, recovery is a run of the machine; on success the outbox is empty; if no store operation fails and no such recovery is beside it, it succeeds exactly when there was no entry, its event had a row, or the process it started for the original request answered accepted; a success adds exactly that event's row, a failure keeps the entry |
| ClientCode.Client.Replay | pkg/connector/outbound.go:102-119 | replaying the saved request is a run of the machine that goes on only with an accepted answer of its own process and exactly that row added, and always does if no store operation fails; else the entry is kept |
| ClientCode.Client.FinishRecovery | pkg/connector/outbound.go:123-138 | the settled entry is deleted, or recovery fails and keeps it; it does not fail unless the receipt lookup or the store does |
| ClientCode.Client.HandleMatrixMessage | pkg/connector/outbound.go:217-240 | handling a reply is a run of the machine that keeps its invariant; its outcome says truly that the row is there, that nothing was submitted, or that the entry is kept; if no store fails, it is not begun exactly when the outbox held an entry whose event had no row and whose replay was not accepted, and otherwise, for a reply that is new, the outcome is the one its own process's answer calls for |
| ClientCode.Client.SendStored | pkg/connector/outbound.go:224-233 | accepted stores the row and empties the outbox, an explicit refusal empties it, anything else keeps the entry unchanged; the answer is that of the process started for the request, unless `send` turned it down |
| ClientCode.Client.SaveResponse | pkg/connector/outbound.go:234-239 | after acceptance the row is stored before the entry is deleted; neither fails unless the store does |
| ClientCode.Client.HandleSourceMessage | pkg/connector/outbound.go:275-289 | amid the same steps, a source message is sent only after recovery has left the outbox empty, and then it is not one of the user's own; with no store failure and no recovery beside it, it is sent, and gets its row, exactly when recovery succeeds, it had no row, and it is not the message recovery just tied to its event |
| MirrorResume.ResumeEquivalence | pkg/connector/connector.go:211-261 | with edits on, any number of dispatches of one revision, each cut off after any durable operation, and then a full one end in exactly the rows, transactions and timeline of one uninterrupted dispatch |
| MirrorResume.AttemptResumes | pkg/connector/connector.go:229-261 | with edits on, one cut-off attempt, with earlier events done, leaves the rest with the same outcome |
| MirrorResume.CutPart | pkg/connector/reconcile.go:21-86 | a part's reconciliation cut off anywhere, even after Matrix accepted a request whose row was never saved, still reaches the same rows and timeline when run again |
| MirrorResume.CutKeepsDone | pkg/connector/reconcile.go:37-51 | any portion of another event of the dispatch leaves a finished event finished |
| MirrorResume.PartIsDone | pkg/connector/reconcile.go:52-64 | a part's event that succeeds leaves nothing of itself to do |
| MirrorResume.DeliverTwice | pkg/connector/connector.go:229-261 | idempotence with edits on: dispatching a revision again sends nothing and changes nothing |
| MirrorOff.ResumeEquivalenceOff | pkg/connector/connector.go:211-261 | with edits off, any number of dispatches of one revision, each cut off anywhere, and then a full one end in exactly the store of one uninterrupted dispatch |
| MirrorOff.AttemptResumesOff | pkg/connector/connector.go:229-261 | with edits off, one cut-off attempt, with earlier parts done, leaves the rest with the same outcome |
| MirrorOff.PartCutOff | pkg/connector/formatting.go:93-172 | with edits off, a part cut off at any operation, even after Matrix accepted a presentation whose row was never saved, still reaches the same store when run again |
| MirrorOff.CutKeepsDoneOff | pkg/connector/formatting.go:93-122 | with edits off, any portion of another event of the dispatch leaves a finished part finished |
| MirrorOff.PartIsDoneOff | pkg/connector/formatting.go:110-122 | with edits off, a part's event that succeeds leaves nothing of itself to do |
| MirrorOff.DeliverTwiceOff | pkg/connector/connector.go:229-261 | idempotence with edits off: dispatching a revision again sends nothing and changes nothing |
| MirrorConverge.DispatchConverges | pkg/connector/reconcile.go:21-86 | from any good store (gaps, grown, shrunk or tombstoned parts), a dispatch that is not cut off succeeds if and only if no message is blocked, and then every message shows exactly its parts and tombstones above them, or is left as the user typed it |
| MirrorConverge.RunsConverge | pkg/connector/events.go:53-96 | over every life of a room whose revisions are retried to the end, or given up with nothing accepted and unsaved, a revision retried to the end succeeds if and only if no row blocks it, and is then what the room shows |
| MirrorConverge.ForeignRowBlocks | pkg/connector/reconcile.go:76-77 | after one of the user's own messages and a change of its source, every dispatch fails, however often it is retried |
| MirrorConverge.GivenUpKeepsGood | pkg/connector/connector.go:229-261 | a dispatch cut off anywhere, or failing, and given up keeps the store good if every request accepted by then has its row saved |
| MirrorConverge.RunsStayGood | pkg/connector/reconcile.go:67-86 | over every such life the rows say truly what their events show and every spent edit is older than its row's next one |
| MirrorConverge.PartKeepsGood | pkg/connector/reconcile.go:79-85 | a part's event that succeeds keeps that, and every request it makes is new to the homeserver |
| MirrorConverge.EditsNeverRepeat | pkg/connector/reconcile.go:79-84 | the events of one part have strictly increasing generations, so returning to earlier content never repeats a transaction |
| MirrorConverge.EditIsFresh | pkg/connector/reconcile.go:79 | the next edit of a row has a transaction the homeserver has not seen |
| MirrorEvents.OneEventPerTransaction | internal/delivery/transport.go:20-23 | however a dispatch is cut off, no transaction has two events, so no part has two originals |
| MirrorEvents.SavesInAnyOrder | pkg/connector/reconcile.go:48-63 | saving the changed rows in another order comes to the same rows |
| MirrorEvents.AddedShowsExactly | pkg/connector/connector.go:242-247 | an added part shows its content if and only if its transaction is new, or was accepted for an event that shows that content |
| MirrorEvents.EditedShowsExactly | pkg/connector/reconcile.go:79-84 | an edit's event shows the content if and only if the edit's transaction is new or the event shows it anyway, and no other event changes |
| MirrorExact.DispatchSucceeds | pkg/connector/reconcile.go:21-77 | from every store a room's life can lead to, a dispatch that is not cut off succeeds if and only if, by the hash, presentation, part count, attachments and sender stored with the rows, no message is stuck: none without a row that ends reconciliation has a row of someone else's that is past its last part and not recorded as the tombstone, or a live part not recorded as showing its content |
| MirrorExact.DispatchShowsExactly | pkg/connector/reconcile.go:21-86 | such a dispatch shows a message it looks at if and only if each request it plans is new or was accepted for an event that shows the content, and the parts it leaves alone show theirs |
| MirrorExact.DispatchLeavesSettled | pkg/connector/reconcile.go:30-36 | a message with a settling row keeps its row and what its event shows |
| MirrorExact.AttemptKeepsTied | pkg/connector/connector.go:229-261 | whatever is cut off and given up, rows are distinct, begin with part 0 and name events of their own, and each transaction has one event |
| MirrorEvents.AddedEvent | pkg/connector/connector.go:242-247 | adding a part: its transaction gets one event, an earlier one if it was accepted before, and its row names that event |
| MirrorEvents.AddedRecords | pkg/connector/events.go:70-80 | what the row of a new part records: its source, its content if it is the assistant's, the number of parts if there are several, and no edit yet |
| MirrorRoom.RoomResumes | pkg/connector/connector.go:266-275 | with edits on or off, a dispatch cut off anywhere, even between its checkpoint writes, and repeated ends, in success or failure, with the store, branch checkpoint and fingerprint of one uninterrupted dispatch |
| MirrorRoom.DispatchedRoom | pkg/connector/connector.go:266-275 | with edits on or off, a dispatch that succeeds leaves its events done and its fingerprint saved, and its branch checkpoint with edits on |
| MirrorRoom.DoneRoom | pkg/connector/connector.go:211-280 | with edits on or off, once a version's events are done and its checkpoint is saved, dispatching it does nothing to the room |
| MirrorRoom.DropsExactly | pkg/connector/reconcile.go:116-127 | a branch has changed if and only if some checkpointed id, wherever it stands, is the id of no message; the new checkpoint lists the ids in order and its generation rises exactly then |
| MirrorRuns.SkipRefinesReplay | pkg/connector/connector.go:169-188 | with edits on or off, after any history of source changes, cut-off dispatches, racing reads and replies, an unchanged version's full replay would succeed and change nothing, so skipping it is right |
| MirrorRuns.NoticesAreAnnouncements | pkg/connector/connector.go:215-226 | over all dispatches, whatever is cut off, fails or is given up and however the setting changes, the room has exactly one notice per branch checkpoint that was announced |
| MirrorRuns.NoticesAreDrops | pkg/connector/reconcile.go:90-127 | over runs of revisions that no row blocks, each retried to the end however often it is cut off, the room gains exactly one notice per revision that omits an id of the one before it, wherever that stands, returns to earlier branches included |
| MirrorRuns.DispatchNotices | pkg/connector/connector.go:215-226 | a dispatch succeeds if and only if no message is blocked, and then adds one notice if some checkpointed id, wherever it stands, is the id of no message, and none otherwise |
| MirrorRuns.OmissionIsAnnounced | pkg/connector/reconcile.go:118-123 | leaving out any one checkpointed id, first, last or between, adds a notice and raises the generation |
| MirrorRuns.AppendsDropNothing | pkg/connector/reconcile.go:118-127 | revisions that only append cause no notice |
| MirrorPlain.ShownSettles | pkg/connector/formatting.go:115-120 | once a part is shown, handling it again asks for nothing and changes nothing, and its row names the content shown |
| MirrorOffExact.OffSucceeds | pkg/connector/formatting.go:93-153 | with edits off, a dispatch that is not cut off succeeds if and only if, by what is stored with the rows, no message has a row of another source or number of parts before any that holds it whole, nor, where there is neither, a row of someone else's that records another presentation |
| MirrorOffExact.OffShowsExactly | pkg/connector/formatting.go:93-172 | with edits off, a part's event that succeeds shows its content if and only if its transaction is new, or its event shows the content anyway |
| MirrorOffExact.OffDispatchShowsExactly | pkg/connector/formatting.go:93-172 | with edits off, a dispatch that succeeds shows all parts of a message whose rows fit if and only if each request it plans is new or was accepted for an event that shows the content, and the parts it leaves alone show theirs |
| MirrorOffExact.OffLeavesWhole | pkg/connector/formatting.go:106-108 | with edits off, a message one row of which holds it whole keeps its rows and what their events show |
| MirrorLives.ReturnWithEditsOff | pkg/connector/formatting.go:158-169 | a run with edits off in which a presentation returned to is recorded and not shown |
| MirrorLives.SwitchedEditShowsExactly | pkg/connector/formatting.go:146 | after a presentation with edits off, the next edit, to any content, repeats a transaction if and only if an edit of that part with generation 1, the same source and content was accepted; it shows the content if and only if none was, or it shows anyway |
| MirrorLives.ReturnAfterSwitching | pkg/connector/reconcile.go:79-84 | two edits, a presentation with edits off and a return to the first edit: the dispatch succeeds, its row says so, and the room shows the presentation |
| MirrorLives.LivesShowExactly | pkg/connector/connector.go:211-280 | after any life of replies and dispatches, with edits on or off, each cut off anywhere, retried or given up: when a dispatch with edits on succeeds, which messages it then shows, and that it leaves the others alone |
| MirrorLives.LivesShowOffExactly | pkg/connector/connector.go:211-280 | after any such life, the same of a dispatch with edits off |
| MirrorLives.LivesStayTied | pkg/connector/connector.go:211-280 | over every such life rows stay distinct, begin with part 0 and name events of their own |
| MirrorLives.LostCommitThenChange | pkg/connector/connector.go:229-261 | a dispatch lost after acceptance, then a changed source: the next dispatch succeeds, its row says so, and the room does not show the change |
| MirrorLives.LostEditsThenReturn | pkg/connector/reconcile.go:79-84 | two edits lost after acceptance, then a dispatch of the first: it succeeds, its row says so, and the room shows the second |
| MirrorPlain.AddsOnlyGaps | pkg/connector/formatting.go:96-114 | a part is added if and only if every row has this very source hash and no other number of parts, none holds the user's own message whole, and the part has no row |
| MirrorPlain.PresentedExactly | pkg/connector/formatting.go:115-169 | a part with a row is presented anew if and only if it is an assistant's and its row records another presentation, or none and the content is not the raw body; what its row then records |
| MirrorPlain.ChangedSourceIsLeft | pkg/connector/formatting.go:96-107 | a message some row of which has another source hash is never sent, added to or rewritten |
| MirrorPlain.OwnMessageIsSilent | pkg/connector/reconcile.go:33-36 | once the user's own message has its row, mirroring it sends and changes nothing, with edits on or off, however many parts it has |
| MirrorCode.Bridge.SendMessage | internal/delivery/transport.go:25-54 | a request is accepted once per transaction and answered with the earlier event when repeated |
| MirrorCode.Bridge.ApplySourceEdit | pkg/connector/reconcile.go:67-86 | an edit already shown sends nothing, a foreign row is refused, and otherwise one request is made and the row advances only if it was accepted |
| MirrorCode.Bridge.ScanRow | pkg/connector/reconcile.go:40-50 | the scan of one row sends the tombstone exactly for a row past the last part, in the order of the rows |
| MirrorCode.Bridge.EditTarget | pkg/connector/reconcile.go:55-63 | the part's own row is edited last, and the framework is told to save what changed |
| MirrorCode.Bridge.MessagePartUpsert | pkg/connector/formatting.go:93-122 | with edits off, the loop over the rows, the request if one is due and the part count it saves come to the verdict the lemmas are about, whether or not the request is accepted |
| MirrorCode.Bridge.PresentationUpsert | pkg/connector/formatting.go:127-172 | only an assistant's own row is presented anew: adopted without a request if it showed the raw body, else edited, and changed only if the request was accepted |
| MirrorCode.Bridge.HandlePartOff | pkg/connector/events.go:83-95 | with edits off, the framework's handling of a part carries out exactly the part's plan, or the portion the fuse allows |
| MirrorCode.Bridge.ReconciledPartUpsert | pkg/connector/reconcile.go:21-65 | the whole upsert carries out exactly the planned requests up to the first failure, and returns the rows and flags the plan's remainder needs |
| MirrorCode.Bridge.HandlePart | pkg/connector/events.go:86-95 | with edits on, the framework's handling of a part carries out exactly the part's plan, or the portion the fuse allows |
| MirrorCode.Bridge.HandleNotice | pkg/connector/connector.go:222-226 | a notice is sent and stored once; one already stored is passed over |
| MirrorCode.Bridge.Events | pkg/connector/events.go:53-96 | the nested loops give every part of every message, in order |
| MirrorCode.Bridge.BranchState | pkg/connector/reconcile.go:90-127 | changed if and only if some checkpointed id, wherever it stands, is the id of no message; the next checkpoint lists the messages' ids in order, and its generation rises exactly then |
| MirrorCode.Bridge.HandleEvents | pkg/connector/connector.go:229-261 | the loop over the events stops at the first failure, with exactly the operations before it carried out |
| MirrorCode.Bridge.Dispatch | pkg/connector/connector.go:211-280 | the code of a dispatch, with edits on or off, failing after any number of durable operations, is exactly the cut-off attempt the theorems above are about, and it reports success exactly when all of it was carried out |
| MirrorOrder.PartsInOrder | pkg/connector/connector.go:229-261 | whatever a dispatch newly sends, with edits on or off and cut off anywhere, is in the order of messages and parts in the room, each part with its own content |
| MirrorOrder.NoticeComesFirst | pkg/connector/connector.go:222-226 | the notice of a branch change comes before every part the dispatch newly sends |
| Rollout.LogMonotone | scripts/codex_source.py:106-149 | of two reads of a log that grows by whole, possibly torn lines, the earlier messages begin the later ones |
| Rollout.CleanReadsAreMonotone | scripts/codex_source.py:106-115 | the same for reads racing the writer, as long as each saw only its last piece unfinished |
| Rollout.RacingReadLosesALine | scripts/codex_source.py:113-115 | a racing read that saw an earlier piece unfinished can lose a line that a later read has before its other messages |
| RolloutRaces.RacingReadBegins | scripts/codex_source.py:106-149 | a racing read's messages begin those of the finished log if and only if no message is heard behind a lost one, a line that says something and that no piece decodes to |
| RolloutRaces.BeginsExactly | scripts/codex_source.py:106-149 | the messages of one read begin those of another, whatever pieces either came in, if and only if each message newly said is the other's own first of its id and every id said before it there was said before it here |
| Rollout.MessagesAreFirsts | scripts/codex_source.py:145-149 | messages have distinct ids, each is the first said with its id, and no id said is missing |
| Rollout.RunningExactly | scripts/codex_source.py:118-122 | a task is running if and only if the last of its lines that begin or end a turn begins one |
| Rollout.ThreadOfPrefix | scripts/codex_source.py:106-115 | a read of a log cut off anywhere makes the thread of the whole lines it holds |
| Rollout.FatalFails | scripts/codex_source.py:112-149 | a line that fails one read fails every later read of the same data |
| Rollout.RolloutFile.ReadLine | scripts/codex_source.py:108 | `readline` with a limit: up to a line feed, the limit or the end of what is there |
| Rollout.RolloutFile.ReadThread | scripts/codex_source.py:90-155 | with the writer appending between any two lines: a completed read returns the thread of the pieces it read, which are at least all that was there when it began, each a line or all there was at the time; a read fails only at a piece that fails it, the last it read; it is oversized exactly when the file is; if the file did not change, the result is that of the file |
| Feed.FeedTask | scripts/codex_source.py:297-323 | a task is an error only if a piece read of it fails the read; one whose file changed meanwhile is fed without a fingerprint, with what the pieces read say; a fingerprint attached to messages is that of the very version they were parsed from, an unchanged marker carries the known fingerprint and is that of the file as it stands, and an undisturbed read gives exactly the file's messages |
| Feed.FeedNext | scripts/codex_source.py:297-323 | what is fed of one of several tasks stays faithful while any of their files grow |
| Feed.FeedAll | scripts/codex_source.py:281-324 | so is everything a whole feed returns; and it fails only at a task whose file holds a piece that fails a read, so it succeeds however the files grow if none does |
| Frames.RoundTrip | scripts/codex_source.py:181-207 | every sequence of frames within the size limit is read back exactly |
| Frames.LowestFirst | scripts/codex_source.py:183 | the length goes out little-endian |
| Frames.CutStream | scripts/codex_source.py:185-192 | a stream cut inside a frame yields the frames before it and nothing of that one |
| Frames.CallReturnsItsOwn | scripts/codex_source.py:194-218 | a call returns the first response with its own request id, and only if it succeeded, is for its method and comes from an owner, its target if it has one |
| Frames.RejectionIsItsOwn | scripts/codex_source.py:210-212 | an explicit error is raised only for one of the call's own responses, the first |
| Frames.FirstAnswerDecides | scripts/codex_source.py:207-218 | a first answer that comes in time decides the call: unsuccessful, it is the explicit error; successful, for the method and from an owner, the target if there is one, it is returned; anything else is a mismatch; every discovery request before it is declined, in order |
| Frames.Connection.Read | scripts/codex_source.py:185-192 | exactly the bytes asked for, in whatever chunks they arrive; failure if and only if fewer come |
| Frames.Connection.ReadFrame | scripts/codex_source.py:204-207 | one frame off the stream; an invalid size if and only if it is 0 or over 64 MiB; a closed connection if too little comes |
| Frames.Connection.ReadFrames | scripts/codex_source.py:204-207 | all frames of a stream, as the round trip speaks of them |
| Frames.Connection.Call | scripts/codex_source.py:194-218 | the call loop writes its request, answers discovery requests and has the outcome the lemmas speak of |
| Writing.CloserIsMatch | pkg/connector/writing.go:55-69 | a line is the counted closer if and only if it is a closer and the lines between are balanced |
| Writing.BalancedOpener | pkg/connector/writing.go:55-73 | within balanced lines every opener is closed, and the inside and the rest are balanced, so no nested rendering meets an unclosed opener |
| Writing.RenderIsWalk | pkg/connector/writing.go:45-91 | the recursive rendering places lines and labels exactly as one pass with a counter does: each source line once, in order, quoted as deep as its enclosing closed containers, to at most 16, and each rendered container's own label where its opener stood |
| Writing.LabelsAreParagraphs | pkg/connector/writing.go:83 | every label stands between blank lines of its own depth |
| Writing.EveryLineOnceInOrder | pkg/connector/writing.go:45-91 | every line that is not a marker appears once, in order |
| Writing.UnchangedExactly | pkg/connector/writing.go:70-73 | the text is unchanged if and only if it has no opener or its first opener is never closed |
| Writing.RenderedExactly | pkg/connector/writing.go:16-17 | a closed container is converted if and only if every opener before it is closed and fewer than 16 containers enclose it |
| Writing.BehindUnclosedLeftRaw | pkg/connector/writing.go:70-73 | behind an opener that is never closed no container is converted |
| Writing.NothingClosed | pkg/connector/writing.go:70-73 | with no closed container the text is unchanged |
| Writing.CompleteContainerLeftRaw | pkg/connector/writing.go:16-17 | the smallest text with a complete container that is left as it is |
| Writing.FindCloser | pkg/connector/writing.go:55-69 | the counting loop finds the matching closer, or -1 when there is none |
| Writing.RenderContainer | pkg/connector/writing.go:74-88 | a closed container becomes its label and its inside, one level deeper |
| Writing.RenderLines | pkg/connector/writing.go:45-91 | the loop over a range renders it as the recursive definition does |
| Writing.RenderWritingBlocks | pkg/connector/writing.go:18-93 | the whole function, so that all of the above holds of its output |
| Writing.MarkCode | pkg/connector/writing.go:27-43 | a line is marked as code if and only if a code segment overlaps it |
| Writing.LineAt | pkg/connector/writing.go:36 | the binary search finds the line holding a position |
| Splitting.PlainKeepsText | pkg/connector/splitting.go:40-48 | the parts of a plain body join to the body and each fits 40 KiB, and there is one exactly when the body fits |
| Splitting.PartsAreFew | pkg/connector/splitting.go:40-48 | either one part, or every part has half the length that is never split, so the number of parts times that length is at most the body's |
| Splitting.SplitHtmlIsRight | pkg/connector/splitting.go:50-98 | every part is balanced markup or plain text within the limit; every character and empty element is in exactly one piece, in order, within exactly the tags it was within; each piece comes of divisions of what was over the limit, and is given up as plain text only over the limit and below the deepest level, within tags over half the limit, or indivisible; the parts show each piece's text, or its plain body where it was given up |
| Splitting.GivenUpOnlyIfHopeless | pkg/connector/splitting.go:62-97 | at any depth and within any tags, each piece comes of some number of halvings and unwrappings of what was over the limit, and markup is given up only below the deepest level, within tags over half the limit, or for a node that is no text of two characters and no element with children |
| Splitting.PiecesKeepLeaves | pkg/connector/splitting.go:68-93 | dividing keeps every character and empty element once, in order, within exactly its own tags and attributes |
| Splitting.FittingBlocksStayMarkup | pkg/connector/splitting.go:68-71 | an oversized message of several blocks (at most two to the 65th), each of which fits by itself: every part is markup and together they show exactly the tree's text |
| Splitting.SplitHtml | pkg/connector/splitting.go:50-98 | the recursion terminates and makes exactly those parts |
| Splitting.SplitNode | pkg/connector/splitting.go:72-97 | a single oversized node: its text halved, its children taken out with its tag around them, or its body as plain text |
| Splitting.SplitMessage | pkg/connector/splitting.go:27-38 | a message is left whole if and only if it fits; otherwise it is split as markup if that parses, else as plain text, and every part can be sent |
| Splitting.EventsFit | pkg/connector/splitting.go:16-18 | a part within the limit fits 64 KiB after encryption |
| Splitting.EditsFitExactly | pkg/connector/splitting.go:100-111 | every edit of a part within the limit fits too, if and only if the edit's own frame and notice come to at most 4605 bytes |
| ActiveSet.TwoTops | pkg/connector/sync.go:225-226 | the top n of two top-n sets is the top n of the whole |
| ActiveSet.LastAreTop | pkg/connector/config.go:167-169 | the last n of the sorted list are the top n of its entries |
| ActiveSet.TopKeepsRank | pkg/connector/config.go:158-166 | a conversation outranked by another is not kept without it: running before idle, then the later updated, then the greater id |
| ActiveSet.SelectActive | pkg/connector/config.go:151-171 | filtering, sorting and keeping the last gives exactly the top entries allowed, in order; a conversation is left out only if it is not allowed, or the room (ten by default, at most a hundred) is full of conversations that outrank it |
| ActiveSet.Cache.UpdateSourceCache | pkg/connector/sync.go:215-238 | after any sequence of updates the active set is the top of everything both lanes last offered in full, though each keeps only n, and the list returned is exactly this lane's share, in order |
| Snapshot.Validate | internal/source/feed.go:88-119 | the loops with their seen sets accept exactly the snapshots whose conversations are sound, with distinct ids, stubs with a fingerprint and no messages, and the others with distinct messages |
| Snapshot.HydrateUnchanged | internal/source/feed.go:121-146 | stubs are replaced in place up to the first that matches nothing delivered; it succeeds if and only if all match and the result is valid |
| Snapshot.StubsBringNothing | internal/source/feed.go:121-139 | a hydrated stub is still marked unchanged, brings no messages and has its own delivered fingerprint |
| Snapshot.StubsBringTheirState | internal/source/feed.go:128-138 | a hydrated stub takes the running state and time of the stub where it brings them, else those delivered, and its running state is no longer known |
| Snapshot.PassedIsDistinct | internal/source/feed.go:140-146 | a snapshot that passes has distinct conversations, and distinct messages in each that comes in full |
| Transport.RoundTrip | internal/delivery/transport.go:25-54 | the step-by-step rewriting of the decoded and the escaped path gives the request the lemmas speak of |
| Transport.TimelineExactly | internal/delivery/transport.go:30-37 | the requests whose transaction changes are exactly the sends of plain and of encrypted messages, in either version of the client API, behind any prefix |
| Transport.OnlyTheTransaction | internal/delivery/transport.go:36-52 | a keyed timeline request goes out as it came but for its transaction if and only if that transaction hid no escaped slash; anything else goes out as it came |
| Transport.SameTransactionExactly | internal/delivery/transport.go:42-48 | two keyed timeline requests carry the same transaction if and only if they are for the same room and the same original, edit or presentation, whatever their bodies and spelling |

## Left out

- Media: downloading, uploading and mirroring of attachments, `mediaFailures`, and replies with attachments. A stored fingerprint does not imply that attachments were delivered, so the theorems are about text.
- ChatGPT browser sending, conversation creation and the remote collector: the backend that decides correctness is not in the repository.
- JournalSafety.UnsentBeforeLockMeansLittle: one direction only, a run for every request; the other direction is JournalSafety.UnsentUnderLockMeansNothing and AdapterCode.Machine.Send.
- Rollout.CleanReadsAreMonotone: sufficient, not necessary; the exact condition is RolloutRaces.RacingReadBegins.
- AdapterCode.Machine.AtomicRecord: the temporary file, its sync and the rename are one step, since no other process reads the temporary file; a journal write that raises is a step of the machine (the process reports uncertain) but not a branch of this method.
- Snapshot.Validate: the patterns, URL and times of a conversation and the roles, counts and times of its messages are one flag; what is proved is how the checks combine over the snapshot.
- Transport.NamesDiffer: the keys of attachment uploads are not modelled, as media are not.
- OutboundRecovery.RecoverySettles: assumes the receipt lookup for entries without a client transaction succeeds (`pkg/connector/outbound.go:125-133`); a failing lookup keeps the entry.
- Splitting.PartsAreFew: counts the source's runes; bodies that are not valid UTF-8 are not modelled.
- Writing.RenderWritingBlocks: lines arrive classified; the regular expressions, the Markdown parser and the text of a label's variant are library code.
- Frames.Connection.Call: deadlines are a bound on the frames awaited.
- Feed.FeedTask: catalog rows, titles, times and the wall-clock bound on a running task (`scripts/codex_source.py:155` and `302`).
- Room creation and state (`ChatResync`), typing indicators, avatars, health files, login, command replies, polling intervals, back-off and error aggregation: plumbing or easy members.
- `Select`, `deliverSource` and the checks that `loadDelivered` and `saveDelivered` make of a stored conversation: filtering, sorting and validation around the parts that are modelled.
- Citation replacement, URL filtering, Markdown rendering and the HTML parser: library behaviour.
- The framework's own storage: rows are a map from message id to rows, and an update of an unchanged row is no operation.
- SQLite, HTTP, sockets, subprocesses, file permissions: kept only as durable maps, a lock, byte streams and success, failure or crash.
