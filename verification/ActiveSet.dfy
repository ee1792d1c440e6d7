/**
 The bounded active set over two sources (pkg/connector/config.go, selectActive; sync.go,
 updateSourceCache): each source keeps only its own most active conversations, and yet the
 combined set is that of everything both sources last offered.
 */
module ActiveSet {

  /** What the order looks at. An id is its place in the order of ids. */
  datatype Entry = Entry(id: nat, running: bool, updated: int)
  datatype Chat = Chat(entry: Entry, messages: seq<nat>)

  /** isLocal: the ids whose prefix says that they are local tasks. */
  datatype Config = Config(maximum: int, allowed: set<nat>, isLocal: nat -> bool)

  /** 0 means the default; anything outside 1 to 100 admits nothing. */
  function Limit(c: Config): nat {
    if c.maximum == 0 then 10 else if c.maximum < 1 || c.maximum > 100 then 0 else c.maximum
  }

  predicate Allows(c: Config, id: nat) { c.allowed == {} || id in c.allowed }

  /** Running conversations come last, then the later updated, then the greater id. */
  predicate Less(a: Entry, b: Entry) {
    if a.running != b.running then !a.running
    else if a.updated == b.updated then a.id < b.id
    else a.updated < b.updated
  }

  // ---------------------------------------------------------------- the top of a set

  function Above(s: set<Entry>, x: Entry): set<Entry> {
    set y | y in s && Less(x, y)
  }

  /** The n greatest entries. */
  function Top(s: set<Entry>, n: nat): set<Entry> {
    set x | x in s && |Above(s, x)| < n
  }

  lemma {:induction false} SubsetSize(a: set<Entry>, b: set<Entry>)
    requires a <= b
    ensures |a| <= |b| && (|a| == |b| ==> a == b)
  {
    if a != {} {
      var x :| x in a;
      SubsetSize(a - {x}, b - {x});
    }
  }

  lemma {:induction false} Least(s: set<Entry>) returns (m: Entry)
    requires s != {}
    ensures m in s && forall x :: x in s && x != m ==> Less(m, x)
  {
    var first :| first in s;
    m := first;
    if s != {first} {
      var other := Least(s - {first});
      if Less(other, first) { m := other; }
      forall x | x in s && x != m ensures Less(m, x) {
        assert x == first || x in s - {first};
      }
    }
  }

  /** A set of at least n entries has exactly n at its top. */
  lemma {:induction false} TopSize(s: set<Entry>, n: nat)
    requires |s| >= n
    ensures |Top(s, n)| == n
    decreases |s|
  {
    if |s| == n {
      forall x | x in s ensures x in Top(s, n) {
        assert Above(s, x) <= s - {x};
        SubsetSize(Above(s, x), s - {x});
      }
      assert Top(s, n) == s;
    } else {
      var m := Least(s);
      var rest := s - {m};
      TopSize(rest, n);
      assert Above(s, m) == rest;
      forall x | x in rest ensures Above(s, x) == Above(rest, x) { assert Less(m, x); }
      assert Top(s, n) == Top(rest, n);
    }
  }

  /** A running conversation outranks an idle one; of two alike, the later updated; of two as late, the greater id. */
  predicate Outranks(x: Entry, y: Entry) {
    || (x.running && !y.running)
    || (x.running == y.running && x.updated > y.updated)
    || (x.running == y.running && x.updated == y.updated && x.id > y.id)
  }

  /** What outranks an entry at the top is at the top: no running conversation is dropped for an idle one. */
  lemma TopKeepsRank(s: set<Entry>, n: nat, x: Entry, y: Entry)
    requires x in s && y in Top(s, n) && Outranks(x, y)
    ensures x in Top(s, n)
  {
    SubsetSize(Above(s, x), Above(s, y));
  }

  /** What is not at the top is outranked by all of it, and the top is full. */
  lemma TopIsFull(s: set<Entry>, n: nat)
    ensures |Top(s, n)| <= n
    ensures forall y :: y in s && y !in Top(s, n) ==> |Top(s, n)| == n
    ensures forall x, y :: x in Top(s, n) && y in s && y !in Top(s, n) && x.id != y.id ==> Outranks(x, y)
  {
    SubsetSize(Top(s, n), s);
    if |s| >= n { TopSize(s, n); }
    forall y | y in s && y !in Top(s, n) ensures |Top(s, n)| == n {
      assert Above(s, y) <= s;
      SubsetSize(Above(s, y), s);
    }
    forall x, y | x in Top(s, n) && y in s && y !in Top(s, n) && x.id != y.id ensures Outranks(x, y) {
      if Outranks(y, x) { TopKeepsRank(s, n, y, x); }
    }
  }

  /** An entry not at the top has n above it there. */
  lemma OutsideTop(s: set<Entry>, n: nat, y: Entry)
    requires y in s && y !in Top(s, n)
    ensures |Above(Top(s, n), y)| >= n
  {
    var above := Above(s, y);
    TopSize(above, n);
    forall z | z in Top(above, n) ensures z in Above(Top(s, n), y) {
      assert Above(above, z) == Above(s, z);
    }
    SubsetSize(Top(above, n), Above(Top(s, n), y));
  }

  /** The top of the two tops is the top of the whole. */
  lemma TwoTops(a: set<Entry>, b: set<Entry>, n: nat)
    ensures Top(Top(a, n) + Top(b, n), n) == Top(a + b, n)
  {
    var kept := Top(a, n) + Top(b, n);
    forall x | x in Top(a + b, n) ensures x in Top(kept, n) {
      TopStays(a, b, n, x);
      assert Above(kept, x) <= Above(a + b, x);
      SubsetSize(Above(kept, x), Above(a + b, x));
    }
    forall x | x in Top(kept, n) ensures x in Top(a + b, n) {
      if exists y :: y in Above(a + b, x) && y !in kept {
        var y :| y in Above(a + b, x) && y !in kept;
        Buried(if y in a then a else b, kept, n, x, y);
      } else {
        assert Above(kept, x) == Above(a + b, x);
      }
    }
  }

  lemma TopStays(a: set<Entry>, b: set<Entry>, n: nat, x: Entry)
    requires x in Top(a + b, n)
    ensures x in Top(a, n) + Top(b, n)
  {
    assert Above(a, x) <= Above(a + b, x) && Above(b, x) <= Above(a + b, x);
    SubsetSize(Above(a, x), Above(a + b, x));
    SubsetSize(Above(b, x), Above(a + b, x));
  }

  /** Below an entry that its own source dropped, nothing is at the combined top. */
  lemma Buried(s: set<Entry>, kept: set<Entry>, n: nat, x: Entry, y: Entry)
    requires y in s && y !in Top(s, n) && Less(x, y) && Top(s, n) <= kept
    ensures |Above(kept, x)| >= n
  {
    OutsideTop(s, n, y);
    assert Above(Top(s, n), y) <= Above(kept, x);
    SubsetSize(Above(Top(s, n), y), Above(kept, x));
  }

  // ---------------------------------------------------------------- lists

  function Entries(chats: seq<Chat>): set<Entry> {
    set k | 0 <= k < |chats| :: chats[k].entry
  }

  predicate DistinctIds(chats: seq<Chat>) {
    forall i, j :: 0 <= i < j < |chats| ==> chats[i].entry.id != chats[j].entry.id
  }

  predicate Sorted(chats: seq<Chat>) {
    forall i, j :: 0 <= i < j < |chats| ==> Less(chats[i].entry, chats[j].entry)
  }

  lemma {:induction false} EntriesSize(chats: seq<Chat>)
    requires Sorted(chats)
    ensures |Entries(chats)| == |chats|
  {
    if chats == [] {
      assert Entries(chats) == {};
    } else {
      EntriesSize(chats[1..]);
      assert Entries(chats) == {chats[0].entry} + Entries(chats[1..]);
      assert chats[0].entry !in Entries(chats[1..]);
    }
  }

  function LastOf(chats: seq<Chat>, n: nat): seq<Chat> {
    if |chats| > n then chats[|chats| - n..] else chats
  }

  lemma InTopAt(chats: seq<Chat>, n: nat, k: nat)
    requires Sorted(chats) && k < |chats|
    ensures chats[k].entry in Top(Entries(chats), n) <==> k >= |chats| - n
  {
    AboveAt(chats, k);
    assert chats[k].entry in Entries(chats);
  }

  lemma InLastAt(chats: seq<Chat>, n: nat, k: nat)
    requires k < |chats| && k >= |chats| - n
    ensures chats[k].entry in Entries(LastOf(chats, n))
  {
    var last := LastOf(chats, n);
    assert last[k - (|chats| - |last|)] == chats[k];
  }

  /** The last n of a sorted list are the top n of its entries. */
  lemma LastAreTop(chats: seq<Chat>, n: nat)
    requires Sorted(chats)
    ensures Entries(LastOf(chats, n)) == Top(Entries(chats), n)
  {
    var last := LastOf(chats, n);
    forall x | x in Entries(last) ensures x in Top(Entries(chats), n) {
      var k :| 0 <= k < |last| && last[k].entry == x;
      InTopAt(chats, n, k + |chats| - |last|);
    }
    forall x | x in Top(Entries(chats), n) ensures x in Entries(last) {
      var k :| 0 <= k < |chats| && chats[k].entry == x;
      InTopAt(chats, n, k);
      InLastAt(chats, n, k);
    }
  }

  lemma AboveAt(chats: seq<Chat>, k: nat)
    requires Sorted(chats) && k < |chats|
    ensures |Above(Entries(chats), chats[k].entry)| == |chats| - 1 - k
  {
    var after := chats[k + 1..];
    EntriesSize(after);
    forall y ensures y in Above(Entries(chats), chats[k].entry) <==> y in Entries(after) {
      if y in Above(Entries(chats), chats[k].entry) {
        var j :| 0 <= j < |chats| && chats[j].entry == y;
        assert j > k;
        assert after[j - k - 1].entry == y;
      }
      if y in Entries(after) {
        var j :| 0 <= j < |after| && after[j].entry == y;
        assert chats[j + k + 1].entry == y;
      }
    }
    assert Above(Entries(chats), chats[k].entry) == Entries(after);
  }

  // ---------------------------------------------------------------- the program

  /** The entries of the chats a configuration allows. */
  function AllowedEntries(c: Config, chats: seq<Chat>): set<Entry> {
    set k | 0 <= k < |chats| && Allows(c, chats[k].entry.id) :: chats[k].entry
  }

  predicate AllAllowed(c: Config, chats: seq<Chat>) {
    forall k :: 0 <= k < |chats| ==> Allows(c, chats[k].entry.id)
  }

  /** Every chat of one list is one of the other's. */
  predicate From(some: seq<Chat>, all: seq<Chat>) {
    forall k :: 0 <= k < |some| ==> some[k] in all
  }

  function InsertAt(sorted: seq<Chat>, chat: Chat, k: nat): seq<Chat>
    requires k <= |sorted|
  {
    sorted[..k] + [chat] + sorted[k..]
  }

  lemma InsertedFrom(sorted: seq<Chat>, chat: Chat, k: nat)
    requires k <= |sorted|
    ensures var more := InsertAt(sorted, chat, k);
      From(more, sorted + [chat]) && Entries(more) == Entries(sorted) + {chat.entry}
  {
    var more := InsertAt(sorted, chat, k);
    forall j | 0 <= j < |more| ensures more[j] in sorted + [chat] {
      if j == k { assert more[j] == chat; } else { assert more[j] == sorted[if j < k then j else j - 1]; }
    }
    forall j | 0 <= j < |sorted| + 1 ensures (sorted + [chat])[j] in more {
      if j == |sorted| { assert more[k] == chat; } else { assert more[if j < k then j else j + 1] == sorted[j]; }
    }
    SameEntries(more, sorted + [chat]);
    EntriesPush(sorted, chat);
  }

  lemma InsertedSorted(sorted: seq<Chat>, chat: Chat, k: nat)
    requires k <= |sorted| && Sorted(sorted)
    requires forall j :: 0 <= j < k ==> Less(sorted[j].entry, chat.entry)
    requires forall j :: k <= j < |sorted| ==> Less(chat.entry, sorted[j].entry)
    ensures Sorted(InsertAt(sorted, chat, k))
  {
  }

  method Insert(sorted: seq<Chat>, chat: Chat) returns (more: seq<Chat>)
    requires Sorted(sorted) && forall k :: 0 <= k < |sorted| ==> sorted[k].entry.id != chat.entry.id
    ensures Sorted(more) && From(more, sorted + [chat])
    ensures Entries(more) == Entries(sorted) + {chat.entry}
  {
    var k := 0;
    while k < |sorted| && Less(sorted[k].entry, chat.entry)
      invariant k <= |sorted| && forall j :: 0 <= j < k ==> Less(sorted[j].entry, chat.entry)
    {
      k := k + 1;
    }
    forall j | k <= j < |sorted| ensures Less(chat.entry, sorted[j].entry) {
      assert Less(chat.entry, sorted[k].entry);
    }
    InsertedFrom(sorted, chat, k);
    InsertedSorted(sorted, chat, k);
    more := sorted[..k] + [chat] + sorted[k..];
  }

  lemma SameEntries(a: seq<Chat>, b: seq<Chat>)
    requires From(a, b) && From(b, a)
    ensures Entries(a) == Entries(b)
  {
    forall x | x in Entries(a) ensures x in Entries(b) {
      var k :| 0 <= k < |a| && a[k].entry == x;
      assert a[k] in b;
    }
    forall x | x in Entries(b) ensures x in Entries(a) {
      var k :| 0 <= k < |b| && b[k].entry == x;
      assert b[k] in a;
    }
  }

  lemma EntriesPush(chats: seq<Chat>, chat: Chat)
    ensures Entries(chats + [chat]) == Entries(chats) + {chat.entry}
  {
    var more := chats + [chat];
    forall x | x in Entries(chats) + {chat.entry} ensures x in Entries(more) {
      if x in Entries(chats) {
        var k :| 0 <= k < |chats| && chats[k].entry == x;
        assert more[k].entry == x;
      } else {
        assert more[|chats|].entry == x;
      }
    }
  }

  /** How many conversations a maximum leaves room for: ten by default, and none if it is out of bounds. */
  function Room(maximum: int): nat {
    if 1 <= maximum <= 100 then maximum else if maximum == 0 then 10 else 0
  }

  /** selectActive: filter, sort, and keep the last; what is left out is outranked by all that are kept, and those fill the room. */
  method SelectActive(c: Config, chats: seq<Chat>) returns (selected: seq<Chat>)
    requires DistinctIds(chats)
    ensures Sorted(selected) && From(selected, chats) && AllAllowed(c, selected)
    ensures Entries(selected) == Top(AllowedEntries(c, chats), Limit(c))
    ensures forall k :: 0 <= k < |selected| ==> c.allowed == {} || selected[k].entry.id in c.allowed
    ensures |selected| <= Room(c.maximum)
    ensures forall k :: 0 <= k < |chats| && (c.allowed == {} || chats[k].entry.id in c.allowed) ==>
      chats[k].entry in Entries(selected)
      || (|selected| == Room(c.maximum) && forall x :: x in Entries(selected) ==> Outranks(x, chats[k].entry))
  {
    selected := [];
    for k := 0 to |chats|
      invariant Sorted(selected) && From(selected, chats[..k]) && AllAllowed(c, selected)
      invariant Entries(selected) == AllowedEntries(c, chats[..k])
    {
      assert chats[..k + 1] == chats[..k] + [chats[k]];
      AllowedPush(c, chats[..k], chats[k]);
      if Allows(c, chats[k].entry.id) {
        forall j | 0 <= j < |selected| ensures selected[j].entry.id != chats[k].entry.id {
          assert selected[j] in chats[..k];
          var i :| 0 <= i < k && chats[i] == selected[j];
        }
        ghost var before := selected;
        selected := Insert(selected, chats[k]);
        forall j | 0 <= j < |selected| ensures selected[j] in chats[..k + 1] && Allows(c, selected[j].entry.id) {
          assert selected[j] in before + [chats[k]];
        }
      }
    }
    assert chats[..|chats|] == chats;
    LastAreTop(selected, Limit(c));
    if |selected| > Limit(c) { selected := selected[|selected| - Limit(c)..]; }
    EntriesSize(selected);
    TopIsFull(AllowedEntries(c, chats), Limit(c));
  }

  lemma AllowedPush(c: Config, chats: seq<Chat>, chat: Chat)
    ensures AllowedEntries(c, chats + [chat]) ==
      AllowedEntries(c, chats) + if Allows(c, chat.entry.id) then {chat.entry} else {}
  {
    var more := chats + [chat];
    forall x | x in AllowedEntries(c, chats) ensures x in AllowedEntries(c, more) {
      var k :| 0 <= k < |chats| && Allows(c, chats[k].entry.id) && chats[k].entry == x;
      assert more[k].entry == x;
    }
    assert more[|chats|] == chat;
  }

  // ---------------------------------------------------------------- two sources, one cache

  datatype Lane = Remote | Local

  predicate InLane(c: Config, id: nat, lane: Lane) { c.isLocal(id) == lane.Local? }

  predicate AllInLane(c: Config, chats: seq<Chat>, lane: Lane) {
    forall k :: 0 <= k < |chats| ==> InLane(c, chats[k].entry.id, lane)
  }

  /** A list's chats without their messages. */
  function Metadata(chats: seq<Chat>): seq<Chat> {
    seq(|chats|, k requires 0 <= k < |chats| => chats[k].(messages := []))
  }

  lemma MetadataEntries(chats: seq<Chat>)
    ensures Entries(Metadata(chats)) == Entries(chats)
    ensures DistinctIds(chats) ==> DistinctIds(Metadata(chats))
    ensures Sorted(chats) ==> Sorted(Metadata(chats))
  {
    forall x ensures x in Entries(Metadata(chats)) <==> x in Entries(chats) {
      if x in Entries(chats) {
        var k :| 0 <= k < |chats| && chats[k].entry == x;
        assert Metadata(chats)[k].entry == x;
      }
    }
  }

  function Ids(entries: set<Entry>): set<nat> {
    set e | e in entries :: e.id
  }

  lemma SelectedKeep(c: Config, selected: seq<Chat>, chats: seq<Chat>, lane: Lane)
    requires Sorted(selected) && From(selected, chats) && DistinctIds(chats)
    ensures DistinctIds(selected) && (AllInLane(c, chats, lane) ==> AllInLane(c, selected, lane))
  {
    forall i, j | 0 <= i < j < |selected| ensures selected[i].entry.id != selected[j].entry.id {
      assert Less(selected[i].entry, selected[j].entry) && selected[i] in chats && selected[j] in chats;
    }
    forall k | AllInLane(c, chats, lane) && 0 <= k < |selected| ensures InLane(c, selected[k].entry.id, lane) {
      assert selected[k] in chats;
    }
  }

  lemma EntriesJoin(a: seq<Chat>, b: seq<Chat>)
    ensures Entries(a + b) == Entries(a) + Entries(b)
  {
    forall x | x in Entries(a) + Entries(b) ensures x in Entries(a + b) {
      if x in Entries(a) {
        var k :| 0 <= k < |a| && a[k].entry == x;
        assert (a + b)[k].entry == x;
      } else {
        var k :| 0 <= k < |b| && b[k].entry == x;
        assert (a + b)[|a| + k].entry == x;
      }
    }
  }

  lemma JoinedLanes(c: Config, remote: seq<Chat>, local: seq<Chat>)
    requires DistinctIds(remote) && DistinctIds(local) && AllInLane(c, remote, Remote) && AllInLane(c, local, Local)
    requires AllAllowed(c, remote) && AllAllowed(c, local)
    ensures DistinctIds(remote + local) && AllowedEntries(c, remote + local) == Entries(remote) + Entries(local)
  {
    EntriesJoin(remote, local);
    var both := remote + local;
    forall x | x in Entries(both) ensures x in AllowedEntries(c, both) {
      var k :| 0 <= k < |both| && both[k].entry == x;
      assert Allows(c, both[k].entry.id);
    }
  }

  /** Entries of one source: in its lane, one to an id. */
  ghost predicate Proper(c: Config, entries: set<Entry>, lane: Lane) {
    (forall e :: e in entries ==> InLane(c, e.id, lane)) && (forall e, f :: e in entries && f in entries && e.id == f.id ==> e == f)
  }

  lemma OfferedIsProper(c: Config, chats: seq<Chat>, lane: Lane)
    requires DistinctIds(chats) && AllInLane(c, chats, lane)
    ensures Proper(c, AllowedEntries(c, chats), lane)
  {
  }

  class Cache {
    const config: Config
    var remote: seq<Chat>   // each source's candidates, without messages
    var local: seq<Chat>
    var chats: map<nat, Chat>   // the active conversations
    ghost var fromRemote: set<Entry>   // all that each source last offered and was allowed
    ghost var fromLocal: set<Entry>

    constructor (config: Config)
      ensures this.config == config && Valid() && fromRemote == {} && fromLocal == {}
    {
      this.config := config;
      remote, local, chats := [], [], map[];
      fromRemote, fromLocal := {}, {};
      new;
      assert Top({}, Limit(config)) == {};
    }

    ghost function Active(): set<Entry>
      reads this
    {
      Top(fromRemote + fromLocal, Limit(config))
    }

    ghost predicate LaneOk(candidates: seq<Chat>, offered: set<Entry>, lane: Lane)
      reads this
    {
      && Sorted(candidates) && DistinctIds(candidates) && AllInLane(config, candidates, lane) && AllAllowed(config, candidates)
      && Entries(candidates) == Top(offered, Limit(config)) && Proper(config, offered, lane)
    }

    /** The active conversations are the top of all that both sources last offered. */
    ghost predicate Valid()
      reads this
    {
      && LaneOk(remote, fromRemote, Remote) && LaneOk(local, fromLocal, Local)
      && chats.Keys == Ids(Active())
      && (forall e :: e in Active() ==> e.id in chats && chats[e.id].entry == e)
    }

    /** The active chats by id. */
    method Replace(active: seq<Chat>)
      requires DistinctIds(active)
      modifies `chats
      ensures chats.Keys == Ids(Entries(active))
      ensures forall e :: e in Entries(active) ==> e.id in chats && chats[e.id].entry == e
    {
      chats := map[];
      for k := 0 to |active|
        invariant forall j :: 0 <= j < k ==> active[j].entry.id in chats && chats[active[j].entry.id] == active[j]
        invariant forall id :: id in chats ==> exists j :: 0 <= j < k && active[j].entry.id == id
      {
        chats := chats[active[k].entry.id := active[k]];
      }
      forall id ensures id in chats.Keys <==> id in Ids(Entries(active)) {
        if id in chats {
          var j :| 0 <= j < |active| && active[j].entry.id == id;
          assert active[j].entry in Entries(active);
        }
      }
    }

    /** Of some candidates, those with an active id, in their order. */
    method Filter(mine: seq<Chat>) returns (selected: seq<Chat>)
      requires Sorted(mine)
      ensures Sorted(selected) && From(selected, mine)
      ensures forall x :: x in Entries(selected) <==> x in Entries(mine) && x.id in chats
    {
      selected := [];
      for k := 0 to |mine|
        invariant Sorted(selected) && From(selected, mine[..k])
        invariant forall x :: x in Entries(selected) <==> x in Entries(mine[..k]) && x.id in chats
      {
        assert mine[..k + 1] == mine[..k] + [mine[k]];
        EntriesPush(mine[..k], mine[k]);
        if mine[k].entry.id in chats {
          EntriesPush(selected, mine[k]);
          forall j | 0 <= j < |selected| ensures Less(selected[j].entry, mine[k].entry) {
            assert selected[j] in mine[..k];
          }
          selected := selected + [mine[k]];
        }
      }
      assert mine[..|mine|] == mine;
    }

    /** The candidates of one source replaced by the top of what it offers. */
    method Offer(lane: Lane, offer: seq<Chat>) returns (mine: seq<Chat>)
      requires LaneOk(remote, fromRemote, Remote) && LaneOk(local, fromLocal, Local) && DistinctIds(offer) && AllInLane(config, offer, lane)
      modifies `remote, `local, `fromRemote, `fromLocal
      ensures LaneOk(remote, fromRemote, Remote) && LaneOk(local, fromLocal, Local)
      ensures fromRemote == if lane.Remote? then AllowedEntries(config, offer) else old(fromRemote)
      ensures fromLocal == if lane.Local? then AllowedEntries(config, offer) else old(fromLocal)
      ensures Sorted(mine) && From(mine, offer) && Entries(mine) == Top(AllowedEntries(config, offer), Limit(config))
    {
      mine := SelectActive(config, offer);
      SelectedKeep(config, mine, offer, lane);
      MetadataEntries(mine);
      OfferedIsProper(config, offer, lane);
      if lane.Local? {
        local, fromLocal := Metadata(mine), AllowedEntries(config, offer);
      } else {
        remote, fromRemote := Metadata(mine), AllowedEntries(config, offer);
      }
    }

    /** The combined active set, from both sources' candidates. */
    method Combine()
      requires LaneOk(remote, fromRemote, Remote) && LaneOk(local, fromLocal, Local)
      modifies `chats
      ensures Valid()
    {
      var combined := remote + local;
      JoinedLanes(config, remote, local);
      TwoTops(fromRemote, fromLocal, Limit(config));
      var active := SelectActive(config, combined);
      SelectedKeep(config, active, combined, Remote);
      Replace(active);
    }

    /** An entry of a source is active when its id is. */
    lemma ActiveById(x: Entry, offered: set<Entry>, lane: Lane)
      requires Valid() && x in offered && (if lane.Local? then offered == fromLocal else offered == fromRemote)
      ensures x.id in chats <==> x in Active()
    {
      if x.id in chats {
        var e :| e in Active() && e.id == x.id;
      }
    }

    /**
     updateSourceCache: one source's chats replace its candidates. The active set is then the top
     of everything both sources last offered, and the returned list is exactly this source's
     share of it, in order.
     */
    method UpdateSourceCache(lane: Lane, offer: seq<Chat>) returns (selected: seq<Chat>)
      requires Valid() && DistinctIds(offer) && AllInLane(config, offer, lane)
      modifies this
      ensures Valid()
      ensures fromRemote == if lane.Remote? then AllowedEntries(config, offer) else old(fromRemote)
      ensures fromLocal == if lane.Local? then AllowedEntries(config, offer) else old(fromLocal)
      ensures Sorted(selected) && From(selected, offer)
      ensures Entries(selected) == AllowedEntries(config, offer) * Active()
    {
      var mine := Offer(lane, offer);
      Combine();
      selected := Filter(mine);
      ghost var offered := AllowedEntries(config, offer);
      forall x ensures x in Entries(selected) <==> x in offered * Active() {
        if x in offered {
          ActiveById(x, offered, lane);
          if x in Active() { TopStays(fromRemote, fromLocal, Limit(config), x); InItsLane(x, offered, lane); }
        }
      }
      forall k | 0 <= k < |selected| ensures selected[k] in offer { assert selected[k] in mine; }
    }

    lemma InItsLane(x: Entry, offered: set<Entry>, lane: Lane)
      requires Valid() && x in Active() && x in offered && (if lane.Local? then offered == fromLocal else offered == fromRemote)
      ensures x in Top(offered, Limit(config))
    {
      assert Above(offered, x) <= Above(fromRemote + fromLocal, x);
      SubsetSize(Above(offered, x), Above(fromRemote + fromLocal, x));
    }
  }
}
