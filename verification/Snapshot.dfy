/**
 The snapshot of a source (internal/source/feed.go): Validate, and HydrateUnchanged, which
 replaces the stubs of unchanged conversations by what was last delivered of them. The checks
 of a conversation's own scalar fields (patterns, URL, times) are one flag, sound.
 */
module Snapshot {

  /** fingerprint 0: none. messages: the message ids. */
  datatype Conversation = Conversation(id: nat, stub: bool, running: bool, runningKnown: bool,
                                       fingerprint: nat, updated: int, sound: bool, messages: seq<nat>)

  predicate Distinct(ids: seq<nat>) {
    forall i, j :: 0 <= i < j < |ids| ==> ids[i] != ids[j]
  }

  predicate Ok(c: Conversation) {
    c.sound && if c.stub then c.fingerprint != 0 && c.messages == [] else Distinct(c.messages)
  }

  predicate Valid(chats: seq<Conversation>) {
    && (forall c :: c in chats ==> Ok(c))
    && (forall i, j :: 0 <= i < j < |chats| ==> chats[i].id != chats[j].id)
  }

  /** No two of the ids are the same; found with the set of those seen. */
  method DistinctMessages(ids: seq<nat>) returns (ok: bool)
    ensures ok == Distinct(ids)
  {
    var seen: set<nat> := {};
    for k := 0 to |ids|
      invariant Distinct(ids[..k]) && forall id :: id in seen <==> id in ids[..k]
    {
      assert ids[..k + 1] == ids[..k] + [ids[k]];
      if ids[k] in seen {
        var j :| 0 <= j < k && ids[j] == ids[k];
        return false;
      }
      seen := seen + {ids[k]};
    }
    assert ids[..|ids|] == ids;
    return true;
  }

  lemma ValidExactly(chats: seq<Conversation>)
    ensures Valid(chats) <==>
      && (forall i, j :: 0 <= i < j < |chats| ==> chats[i].id != chats[j].id)
      && (forall k :: 0 <= k < |chats| ==> chats[k].sound)
      && (forall k :: 0 <= k < |chats| && chats[k].stub ==> chats[k].fingerprint != 0 && chats[k].messages == [])
      && (forall k, i, j :: 0 <= k < |chats| && !chats[k].stub && 0 <= i < j < |chats[k].messages| ==>
            chats[k].messages[i] != chats[k].messages[j])
  {
    assert forall k :: 0 <= k < |chats| ==> chats[k] in chats;
  }

  method Validate(chats: seq<Conversation>) returns (ok: bool)
    ensures ok == Valid(chats)
    ensures ok <==>
      && (forall i, j :: 0 <= i < j < |chats| ==> chats[i].id != chats[j].id)
      && (forall k :: 0 <= k < |chats| ==> chats[k].sound)
      && (forall k :: 0 <= k < |chats| && chats[k].stub ==> chats[k].fingerprint != 0 && chats[k].messages == [])
      && (forall k, i, j :: 0 <= k < |chats| && !chats[k].stub && 0 <= i < j < |chats[k].messages| ==>
            chats[k].messages[i] != chats[k].messages[j])
  {
    ValidExactly(chats);
    var seen: set<nat> := {};
    for k := 0 to |chats|
      invariant Valid(chats[..k])
      invariant forall id :: id in seen <==> exists j :: 0 <= j < k && chats[j].id == id
    {
      var c := chats[k];
      assert chats[..k + 1] == chats[..k] + [c];
      if c.id in seen {
        var j :| 0 <= j < k && chats[j].id == c.id;
        return false;
      }
      var distinct := DistinctMessages(c.messages);
      if !c.sound || (if c.stub then c.fingerprint == 0 || c.messages != [] else !distinct) {
        assert c in chats;
        return false;
      }
      seen := seen + {c.id};
    }
    assert chats[..|chats|] == chats;
    return true;
  }

  // ---------------------------------------------------------------- hydration

  /** A stub may stand for what was delivered: same fingerprint, and itself not a stub. */
  predicate Matches(c: Conversation, known: map<nat, Conversation>) {
    c.id in known && known[c.id].fingerprint == c.fingerprint && !known[c.id].stub
  }

  /** What a stub becomes: what was delivered, with the state the stub brings. */
  function Hydrated(c: Conversation, known: map<nat, Conversation>): Conversation {
    if !c.stub || c.id !in known then c
    else
      var previous := known[c.id];
      previous.(stub := true, runningKnown := false,
                running := if c.runningKnown then c.running else previous.running,
                updated := if c.updated > 0 then c.updated else previous.updated)
  }

  /** The snapshot as its final check sees it: nothing marked unchanged. */
  function Unmarked(chats: seq<Conversation>): (unmarked: seq<Conversation>)
    ensures |unmarked| == |chats| && forall k :: 0 <= k < |chats| ==> unmarked[k] == chats[k].(stub := false)
  {
    seq(|chats|, k requires 0 <= k < |chats| => chats[k].(stub := false))
  }

  predicate AllMatch(chats: seq<Conversation>, known: map<nat, Conversation>) {
    forall k :: 0 <= k < |chats| && chats[k].stub ==> Matches(chats[k], known)
  }

  /** Stubs are replaced in place, up to the first that matches nothing delivered. */
  method HydrateUnchanged(chats: array<Conversation>, known: map<nat, Conversation>) returns (ok: bool, ghost stop: nat)
    modifies chats
    ensures stop <= chats.Length && AllMatch(old(chats[..])[..stop], known)
    ensures stop < chats.Length ==> old(chats[stop]).stub && !Matches(old(chats[stop]), known)
    ensures forall k :: 0 <= k < chats.Length ==> chats[k] == if k < stop then Hydrated(old(chats[k]), known) else old(chats[k])
    ensures ok <==> AllMatch(old(chats[..]), known) && Valid(Unmarked(chats[..]))
  {
    for k := 0 to chats.Length
      invariant AllMatch(old(chats[..])[..k], known)
      invariant forall j :: 0 <= j < chats.Length ==> chats[j] == if j < k then Hydrated(old(chats[j]), known) else old(chats[j])
    {
      var c := chats[k];
      assert old(chats[..])[k] == c;
      if c.stub {
        if c.id !in known || known[c.id].fingerprint != c.fingerprint || known[c.id].stub { return false, k; }
        var previous := known[c.id].(stub := true);
        if c.runningKnown { previous := previous.(running := c.running); }
        previous := previous.(runningKnown := false);
        if c.updated > 0 { previous := previous.(updated := c.updated); }
        chats[k] := previous;
      }
    }
    assert old(chats[..])[..chats.Length] == old(chats[..]);
    var validated := Unmarked(chats[..]);
    ok := Validate(validated);
    stop := chats.Length;
  }

  /** The delivered states: stored under their own ids, without messages. */
  predicate Delivered(known: map<nat, Conversation>) {
    forall id :: id in known ==> known[id].id == id && known[id].messages == [] && !known[id].stub && known[id].fingerprint != 0
  }

  /**
   A hydrated stub brings nothing to deliver: it is still marked unchanged and has no messages,
   and the fingerprint it carries is the delivered one of its own conversation.
   */
  lemma StubsBringNothing(chats: seq<Conversation>, known: map<nat, Conversation>, k: nat)
    requires AllMatch(chats, known) && Delivered(known) && k < |chats|
    ensures var h := Hydrated(chats[k], known);
      && h.id == chats[k].id && h.fingerprint == chats[k].fingerprint && h.stub == chats[k].stub
      && (h.stub ==> h.messages == [] && known[h.id].fingerprint == h.fingerprint)
      && (!h.stub ==> h == chats[k])
  {
    if chats[k].stub { assert Matches(chats[k], known); }
  }

  /** The state a stub brings is taken where it brings one, and is otherwise what was delivered; none is still known. */
  lemma StubsBringTheirState(chats: seq<Conversation>, known: map<nat, Conversation>, k: nat)
    requires AllMatch(chats, known) && k < |chats| && chats[k].stub
    ensures var c := chats[k]; var h := Hydrated(c, known);
      && c.id in known && !h.runningKnown
      && (h.running <==> (c.runningKnown && c.running) || (!c.runningKnown && known[c.id].running))
      && (c.updated > 0 ==> h.updated == c.updated) && (c.updated <= 0 ==> h.updated == known[c.id].updated)
      && h.sound == known[c.id].sound
  {
    assert Matches(chats[k], known);
  }

  /** Of a snapshot that passes, every conversation in full has distinct messages, and no id occurs twice. */
  lemma PassedIsDistinct(chats: seq<Conversation>, known: map<nat, Conversation>)
    requires AllMatch(chats, known) && Delivered(known)
    requires Valid(Unmarked(seq(|chats|, k requires 0 <= k < |chats| => Hydrated(chats[k], known))))
    ensures forall i, j :: 0 <= i < j < |chats| ==> chats[i].id != chats[j].id
    ensures forall k :: 0 <= k < |chats| && !chats[k].stub ==> Distinct(chats[k].messages)
  {
    var unmarked := Unmarked(seq(|chats|, k requires 0 <= k < |chats| => Hydrated(chats[k], known)));
    forall k | 0 <= k < |chats| ensures unmarked[k].id == chats[k].id && (!chats[k].stub ==> Distinct(chats[k].messages)) {
      StubsBringNothing(chats, known, k);
      assert unmarked[k] in unmarked;
    }
  }
}
