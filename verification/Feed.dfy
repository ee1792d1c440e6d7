/**
 The optimistic read of a live rollout (scripts/codex_source.py, feed): the fingerprint is taken
 before and after the messages are read, with the writer appending between any two steps.
 */
module Feed {
  import opened Journal
  import opened Rollout

  /** What feed says of a task; a fingerprint stands for the version it was taken of. */
  datatype Conversation =
    | Same(mark: nat)
    | Full(messages: seq<Item>, running: bool, fingerprint: Option<nat>)

  datatype Fed = Error | Fed(conversation: Conversation)

  /** The messages of a file's data; a file too large to read has none. */
  function Messages(decode: Decoder, data: string): seq<Item> {
    var read := ReadOf(decode, data);
    if read.Read? then read.messages else []
  }

  /** A fingerprint attached to messages is that of the very version they are the messages of. */
  predicate Faithful(decode: Decoder, conversation: Conversation, history: seq<string>) {
    conversation.Full? && conversation.fingerprint.Some? ==>
      var version := conversation.fingerprint.value;
      version < |history| && conversation.messages == Messages(decode, history[version])
  }

  /** An unchanged marker carries the fingerprint the reader knew, of a version the file has had. */
  predicate Known(known: Option<nat>, conversation: Conversation, history: seq<string>) {
    conversation.Same? ==> known == Some(conversation.mark) && conversation.mark < |history|
  }

  /** These pieces of the file, taken as it grew, say these messages. */
  ghost predicate Heard(decode: Decoder, pieces: seq<string>, messages: seq<Item>, running: bool, history: seq<string>) {
    && history != [] && AsRead(pieces, history) && Concat(pieces) <= history[|history| - 1]
    && Scan(decode, pieces).Some?
    && messages == Scan(decode, pieces).value.messages && running == Scan(decode, pieces).value.active
  }

  predicate TooLarge(history: seq<string>) {
    exists version :: 0 <= version < |history| && |history[version]| > LIMIT
  }

  /** What is fed in full was read of the file, or is nothing as the file is too large. */
  ghost predicate Drawn(decode: Decoder, conversation: Conversation, history: seq<string>) {
    conversation.Full? ==>
      || (TooLarge(history) && conversation.messages == [] && !conversation.running)
      || exists pieces :: Heard(decode, pieces, conversation.messages, conversation.running, history)
  }

  /** Nothing that can be read of the data as one line fails the read. */
  ghost predicate Harmless(decode: Decoder, data: string) {
    forall i, j :: 0 <= i < j <= |data| && Piece(data[i..j]) ==> !decode(data[i..j]).Fatal?
  }

  lemma FailureIsHarm(decode: Decoder, pieces: seq<string>, history: seq<string>, data: string)
    requires AsRead(pieces, history) && FailsAt(decode, pieces) && Concat(pieces) <= data
    ensures !Harmless(decode, data)
  {
    var last := |pieces| - 1;
    var i, j := |Concat(pieces[..last])|, |Concat(pieces)|;
    assert Concat(pieces) == Concat(pieces[..last]) + pieces[last] == data[..j];
    assert data[i..j] == data[..j][i..] == pieces[last];
    assert Piece(data[i..j]);
  }

  lemma HarmStays(decode: Decoder, before: string, after: string)
    requires before <= after && Harmless(decode, after)
    ensures Harmless(decode, before)
  {
    hide Piece;
    forall i, j | 0 <= i < j <= |before| && Piece(before[i..j]) ensures !decode(before[i..j]).Fatal? {
      assert before[i..j] == after[i..j];
    }
  }

  lemma HeardLater(decode: Decoder, pieces: seq<string>, messages: seq<Item>, running: bool, before: seq<string>, after: seq<string>)
    requires Heard(decode, pieces, messages, running, before)
    requires before <= after && before[|before| - 1] <= after[|after| - 1]
    ensures Heard(decode, pieces, messages, running, after)
  {
    hide Scan, Concat, AsRead;
    AsReadLater(pieces, before, after);
  }

  /** What holds of a task's conversation holds of it however the file grows. */
  lemma StaysFaithful(decode: Decoder, known: Option<nat>, conversation: Conversation, before: seq<string>, after: seq<string>)
    requires Fair(decode, known, conversation, before)
    requires GrownFile(before, after)
    ensures Fair(decode, known, conversation, after)
  {
    hide Heard;
    if conversation.Full? {
      if TooLarge(before) {
        var version :| 0 <= version < |before| && |before[version]| > LIMIT;
        assert |after[version]| > LIMIT;
      }
      if pieces :| Heard(decode, pieces, conversation.messages, conversation.running, before) {
        HeardLater(decode, pieces, conversation.messages, conversation.running, before, after);
      }
    }
  }

  ghost predicate Fair(decode: Decoder, known: Option<nat>, conversation: Conversation, history: seq<string>) {
    Faithful(decode, conversation, history) && Known(known, conversation, history) && Drawn(decode, conversation, history)
  }

  /**
   One task of the feed. The marker and the fingerprint are checked against the file as it stands.
   Only a line that fails the read is an error; a file that changed meanwhile is fed without a
   fingerprint, with what its pieces say.
   */
  method FeedTask(file: RolloutFile, decode: Decoder, known: Option<nat>) returns (fed: Fed, ghost pieces: seq<string>)
    requires file.Valid()
    modifies file
    ensures file.Valid() && old(file.history) <= file.history && old(file.data) <= file.data
    ensures fed.Fed? ==> Faithful(decode, fed.conversation, file.history)
    ensures fed.Fed? && fed.conversation.Same? ==>
      file.version == old(file.version) == fed.conversation.mark && known == Some(fed.conversation.mark)
    ensures fed.Fed? && fed.conversation.Full? ==>
      && fed.conversation.fingerprint == (if file.version == old(file.version) then Some(file.version) else None)
      && if |old(file.data)| > LIMIT then fed.conversation.messages == [] && !fed.conversation.running
         else || (|file.data| > LIMIT && fed.conversation.messages == [] && !fed.conversation.running)
              || (old(file.data) <= Concat(pieces)
                  && Heard(decode, pieces, fed.conversation.messages, fed.conversation.running, file.history))
    ensures fed.Error? ==> FailsAt(decode, pieces) && AsRead(pieces, file.history) && Concat(pieces) <= file.data
    ensures file.version == old(file.version) ==>
      match ReadOf(decode, file.data)
      case Failed => fed == (if known == Some(file.version) then Fed(Same(file.version)) else Error)
      case Oversized => fed == Fed(if known == Some(file.version) then Same(file.version) else Full([], false, Some(file.version)))
      case Read(messages, active) =>
        fed == Fed(if known == Some(file.version) then Same(file.version) else Full(messages, active, Some(file.version)))
  {
    hide Scan, Lines, Concat, AsRead, FailsAt;
    pieces := [];
    var fingerprint := file.version;
    file.Grow();
    if known == Some(fingerprint) {
      file.Grow();
      if file.version == fingerprint { return Fed(Same(fingerprint)), pieces; }
    }
    var result;
    result, pieces := file.ReadThread(decode);
    if result.Failed? { return Error, pieces; }
    var messages, active := [], false;
    if result.Read? { messages, active := result.messages, result.active; }
    ghost var before := file.history;
    file.Grow();
    AsReadLater(pieces, before, file.history);
    if file.version != fingerprint { return Fed(Full(messages, active, None)), pieces; }
    return Fed(Full(messages, active, Some(fingerprint))), pieces;
  }

  /** The versions each of several files has had. */
  ghost function Histories(files: seq<RolloutFile>): (r: seq<seq<string>>)
    reads files
    ensures |r| == |files| && forall i :: 0 <= i < |files| ==> r[i] == files[i].history
  {
    seq(|files|, i requires 0 <= i < |files| reads files => files[i].history)
  }

  /** What has been fed of the first tasks is faithful to their files. */
  ghost predicate AllFaithful(decode: Decoder, histories: seq<seq<string>>, known: seq<Option<nat>>, conversations: seq<Conversation>)
  {
    && |conversations| <= |histories| == |known|
    && forall i :: 0 <= i < |conversations| ==>
         Fair(decode, known[i], conversations[i], histories[i])
  }

  /** Each file has a version, and any later one begins with it. */
  predicate Grown(before: seq<seq<string>>, after: seq<seq<string>>) {
    |after| == |before| && forall i :: 0 <= i < |before| ==> GrownFile(before[i], after[i])
  }

  predicate GrownFile(before: seq<string>, after: seq<string>) {
    before != [] && before <= after && before[|before| - 1] <= after[|after| - 1]
  }

  /** Whatever is appended to any of the files meanwhile. */
  lemma AllStayFaithful(decode: Decoder, before: seq<seq<string>>, after: seq<seq<string>>, known: seq<Option<nat>>,
                        conversations: seq<Conversation>)
    requires AllFaithful(decode, before, known, conversations) && Grown(before, after)
    ensures AllFaithful(decode, after, known, conversations)
  {
    hide Fair;
    forall i | 0 <= i < |conversations| ensures Fair(decode, known[i], conversations[i], after[i]) {
      StaysFaithful(decode, known[i], conversations[i], before[i], after[i]);
    }
  }

  twostate lemma HistoryGrows(file: RolloutFile)
    requires old(file.Valid()) && file.Valid() && old(file.history) <= file.history && old(file.data) <= file.data
    ensures GrownFile(old(file.history), file.history)
  {
  }

  twostate lemma HistoriesGrow(files: seq<RolloutFile>)
    requires forall f :: f in files ==> old(f.Valid()) && f.Valid() && old(f.history) <= f.history && old(f.data) <= f.data
    ensures Grown(old(Histories(files)), Histories(files))
  {
    hide GrownFile;
    ghost var before, after := old(Histories(files)), Histories(files);
    forall i | 0 <= i < |files| ensures GrownFile(before[i], after[i]) {
      assert files[i] in files;
      HistoryGrows(files[i]);
    }
  }

  lemma OneMoreFair(decode: Decoder, histories: seq<seq<string>>, known: seq<Option<nat>>,
                    conversations: seq<Conversation>, conversation: Conversation)
    requires AllFaithful(decode, histories, known, conversations) && |conversations| < |histories|
    requires Fair(decode, known[|conversations|], conversation, histories[|conversations|])
    ensures AllFaithful(decode, histories, known, conversations + [conversation])
  {
    hide Fair;
  }

  lemma TaskIsFair(decode: Decoder, known: Option<nat>, conversation: Conversation, pieces: seq<string>, file: RolloutFile)
    requires file.Valid() && Faithful(decode, conversation, file.history)
    requires conversation.Same? ==> conversation.mark == file.version && known == Some(conversation.mark)
    requires conversation.Full? ==>
      || (|file.data| > LIMIT && conversation.messages == [] && !conversation.running)
      || Heard(decode, pieces, conversation.messages, conversation.running, file.history)
    ensures Fair(decode, known, conversation, file.history)
  {
    hide Heard;
    if |file.data| > LIMIT { assert |file.history[file.version]| > LIMIT; }
  }

  /** The next of several tasks, while any of their files may grow. */
  method FeedNext(files: seq<RolloutFile>, k: nat, decode: Decoder, known: Option<nat>) returns (fed: Fed)
    requires k < |files| && forall f :: f in files ==> f.Valid()
    modifies files
    ensures forall f :: f in files ==> f.Valid() && old(f.history) <= f.history && old(f.data) <= f.data
    ensures fed.Fed? ==> Fair(decode, known, fed.conversation, files[k].history)
    ensures fed.Error? ==> !Harmless(decode, files[k].data)
  {
    hide Fair, Harmless, Heard;
    ghost var pieces;
    fed, pieces := FeedTask(files[k], decode, known);
    ghost var history, data := files[k].history, files[k].data;
    if fed.Fed? {
      TaskIsFair(decode, known, fed.conversation, pieces, files[k]);
    } else {
      FailureIsHarm(decode, pieces, history, data);
    }
    GrowAll(files);
    if fed.Fed? { StaysFaithful(decode, known, fed.conversation, history, files[k].history); }
    if fed.Error? && Harmless(decode, files[k].data) { HarmStays(decode, data, files[k].data); }
  }

  /**
   Every task in turn; one that cannot be read fails the feed, so the feed succeeds if no file
   holds a line that fails a read, however the files grow meanwhile.
   */
  method FeedAll(files: seq<RolloutFile>, decode: Decoder, known: seq<Option<nat>>) returns (conversations: seq<Conversation>, ok: bool)
    requires |known| == |files| && forall f :: f in files ==> f.Valid()
    modifies files
    ensures AllFaithful(decode, Histories(files), known, conversations) && (ok ==> |conversations| == |files|)
    ensures !ok ==> |conversations| < |files| && !Harmless(decode, files[|conversations|].data)
  {
    conversations := [];
    assert AllFaithful(decode, Histories(files), known, conversations);
    hide Fair, Harmless, AllFaithful, Grown;
    while |conversations| < |files|
      invariant |conversations| <= |files| && AllFaithful(decode, Histories(files), known, conversations)
      invariant forall f :: f in files ==> f.Valid()
    {
      ghost var before := Histories(files);
      label Awaited:
      var fed := FeedNext(files, |conversations|, decode, known[|conversations|]);
      HistoriesGrow@Awaited(files);
      AllStayFaithful(decode, before, Histories(files), known, conversations);
      if fed.Error? { return conversations, false; }
      OneMoreFair(decode, Histories(files), known, conversations, fed.conversation);
      conversations := conversations + [fed.conversation];
    }
    return conversations, true;
  }

  method GrowAll(files: seq<RolloutFile>)
    requires forall f :: f in files ==> f.Valid()
    modifies files
    ensures forall f :: f in files ==> f.Valid() && old(f.history) <= f.history && old(f.data) <= f.data
  {
    for i := 0 to |files|
      invariant forall f :: f in files ==> f.Valid() && old(f.history) <= f.history && old(f.data) <= f.data
    {
      files[i].Grow();
    }
  }
}
