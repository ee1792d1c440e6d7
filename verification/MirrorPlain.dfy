/**
 The mirror with edits off (pkg/connector/formatting.go, messagePartUpsert and
 presentationUpsert): a changed source is refused, only missing parts are added, an assistant's
 presentation follows its rendering, and one of the user's own messages is left alone, as it is
 with edits on.
 */
module MirrorPlain {
  import opened Mirror
  import opened MirrorResume
  import opened MirrorEvents

  /**
   What comes of a part: refused, nothing, its addition, or its row showing meta, for which an edit
   may first have to be accepted.
   */
  datatype Verdict = Refuse | Leave | Add | Shown(meta: Metadata, request: Option<Content>)

  predicate Fits(row: Row, m: Message) {
    row.meta.hash == m.source && (row.meta.count > 1 ==> row.meta.count == |m.parts|)
  }

  predicate HoldsWhole(row: Row, m: Message) {
    m.source.role.User? && row.part == 0 && row.meta.count == 0
  }

  /**
   presentationUpsert on the part's own row: only an assistant's presentation is ever rewritten,
   and neither generation nor attachments are carried over.
   */
  function Presenting(row: Row, m: Message, content: Content): Verdict {
    var updated := Metadata(m.source, Some(content), row.meta.count, 0, false);
    if m.source.role.User? || row.meta.shown == Some(content) then Shown(row.meta, None)
    else if row.meta.shown.None? && content == m.source.body then Shown(updated, None)
    else if !row.mine then Refuse
    else Shown(updated, Some(content))
  }

  /** A row stored before its message had several parts learns their number. */
  function Present(row: Row, m: Message, content: Content): Verdict {
    var verdict := Presenting(row, m, content);
    if verdict.Shown? && |m.parts| > 1 then verdict.(meta := verdict.meta.(count := |m.parts|)) else verdict
  }

  /** The first row that does not fit, or that holds the whole message, decides. */
  function Judge(rows: seq<Row>, m: Message, index: nat, target: Option<Row>): Verdict
    requires index < |m.parts|
  {
    if rows == [] then (if target.None? then Add else Present(target.value, m, m.parts[index]))
    else if !Fits(rows[0], m) then Refuse
    else if HoldsWhole(rows[0], m) then Leave
    else Judge(rows[1..], m, index, if rows[0].part == index then Some(rows[0]) else target)
  }

  lemma SetAt(rows: seq<Row>, k: nat, meta: Metadata)
    requires k < |rows| && Distinct(rows)
    ensures rows[k := rows[k].(meta := meta)] == SetMeta(rows, rows[k].part, meta)
    ensures rows == SetMeta(rows, rows[k].part, meta) <==> rows[k].meta == meta
  {
    SetMetaAt(rows, rows[k].part, meta);
    assert rows[k] == rows[k].(meta := rows[k].meta);
  }

  // ---------------------------------------------------------------- what is sent

  lemma {:induction false} JudgeAdds(rows: seq<Row>, m: Message, index: nat, target: Option<Row>)
    requires index < |m.parts|
    ensures Judge(rows, m, index, target) == Add <==>
      target.None? && forall r :: r in rows ==> Fits(r, m) && !HoldsWhole(r, m) && r.part != index
  {
    if rows != [] {
      var next := if rows[0].part == index then Some(rows[0]) else target;
      JudgeAdds(rows[1..], m, index, next);
      assert forall r :: r in rows <==> r == rows[0] || r in rows[1..];
    }
  }

  /** What is stored of a row: it is of another source, or of another number of parts. */
  predicate Foreign(row: Row, m: Message) {
    row.meta.hash != m.source || (row.meta.count > 1 && row.meta.count != |m.parts|)
  }

  /** It is the first row of one of the user's own messages, sent in one piece. */
  predicate OwnWhole(row: Row, m: Message) {
    row.part == 0 && row.meta.count == 0 && m.source == Source(User, m.source.body)
  }

  /**
   Only gaps are filled: a part is added exactly when every stored row is of this very source
   and layout, none holds the whole message, and the part has no row.
   */
  lemma AddsOnlyGaps(rows: seq<Row>, m: Message, index: nat)
    requires index < |m.parts|
    ensures Judge(rows, m, index, None) == Add <==>
      Find(rows, index).None? && forall r :: r in rows ==> Fits(r, m) && !HoldsWhole(r, m)
    ensures Judge(rows, m, index, None) == Add <==>
      forall r :: r in rows ==> r.part != index && !Foreign(r, m) && !OwnWhole(r, m)
  {
    JudgeAdds(rows, m, index, None);
    FindIs(rows, index);
  }

  /** With every row scanned, the part's own row decides. */
  lemma {:induction false} JudgeShows(rows: seq<Row>, m: Message, index: nat, target: Option<Row>)
    requires index < |m.parts| && Judge(rows, m, index, target).Shown?
    ensures forall r :: r in rows ==> Fits(r, m) && !HoldsWhole(r, m)
    ensures target.Some? && (forall r :: r in rows ==> r.part != index) ==>
      Judge(rows, m, index, target) == Present(target.value, m, m.parts[index])
    ensures target.None? ==> exists r :: r in rows && r.part == index
  {
    if rows != [] {
      JudgeShows(rows[1..], m, index, if rows[0].part == index then Some(rows[0]) else target);
      assert forall r :: r in rows <==> r == rows[0] || r in rows[1..];
    }
  }

  /** A source that has changed is never sent, added to or rewritten. */
  lemma ChangedSourceIsLeft(rows: seq<Row>, m: Message, index: nat)
    requires index < |m.parts| && exists r :: r in rows && r.meta.hash != m.source
    ensures Judge(rows, m, index, None).Refuse? || Judge(rows, m, index, None).Leave?
  {
    JudgeAdds(rows, m, index, None);
    if Judge(rows, m, index, None).Shown? { JudgeShows(rows, m, index, None); }
  }

  /** Rows that all fit and hold no whole message are judged by the part's own. */
  lemma {:induction false} JudgeByTarget(rows: seq<Row>, m: Message, index: nat, target: Option<Row>, own: Row)
    requires index < |m.parts| && forall r :: r in rows ==> Fits(r, m) && !HoldsWhole(r, m)
    requires forall r :: r in rows && r.part == index ==> r == own
    requires target == Some(own) || (target.None? && own in rows && own.part == index)
    ensures Judge(rows, m, index, target) == Present(own, m, m.parts[index])
  {
    if rows != [] {
      assert forall r :: r in rows <==> r == rows[0] || r in rows[1..];
      JudgeByTarget(rows[1..], m, index, if rows[0].part == index then Some(rows[0]) else target, own);
    }
  }

  /**
   Once its row shows a part, handling the part again asks for nothing and changes nothing; until
   an accepted edit has been saved, it asks for the very same edit.
   */
  lemma ShownSettles(rows: seq<Row>, m: Message, index: nat)
    requires index < |m.parts| && Distinct(rows) && Judge(rows, m, index, None).Shown?
    ensures var next := SetMeta(rows, index, Judge(rows, m, index, None).meta);
      Judge(next, m, index, None) == Shown(Judge(rows, m, index, None).meta, None)
    ensures Judge(rows, m, index, None).meta.shown == Some(m.parts[index]) || m.source.role.User?
  {
    JudgeShows(rows, m, index, None);
    var k :| 0 <= k < |rows| && rows[k].part == index;
    JudgeByTarget(rows, m, index, None, rows[k]);
    PresentedRests(rows[k], m, index);
    ShownAgain(rows, m, index, k, Judge(rows, m, index, None).meta);
  }

  /** By what is stored of a row, an assistant's part no longer looks as it should. */
  predicate LooksDifferent(row: Row, m: Message, content: Content) {
    && m.source == Source(Assistant, m.source.body) && row.meta.shown != Some(content)
    && (row.meta.shown.None? ==> content != m.source.body)
  }

  /**
   A part with a row is presented anew exactly if it is an assistant's and its row records another
   presentation, or none and its content is not the raw body; its own row then records the content,
   its source stays, and so does its number of parts unless it has several.
   */
  lemma PresentedExactly(rows: seq<Row>, m: Message, index: nat) returns (k: nat)
    requires index < |m.parts| && Distinct(rows) && Judge(rows, m, index, None).Shown?
    ensures k < |rows| && rows[k].part == index
    ensures var verdict := Judge(rows, m, index, None); var content := m.parts[index];
      && verdict.request == (if LooksDifferent(rows[k], m, content) then Some(content) else None)
      && (verdict.request.Some? ==> rows[k].mine)
      && verdict.meta.hash == m.source
      && verdict.meta.shown == (if m.source.role.User? then rows[k].meta.shown else Some(content))
      && verdict.meta.count == (if |m.parts| > 1 then |m.parts| else rows[k].meta.count)
  {
    JudgeShows(rows, m, index, None);
    k :| 0 <= k < |rows| && rows[k].part == index;
    JudgeByTarget(rows, m, index, None, rows[k]);
  }

  /** A row presented anew fits, holds no whole message, and needs nothing more. */
  lemma PresentedRests(row: Row, m: Message, index: nat)
    requires index < |m.parts| && row.part == index && Fits(row, m) && !HoldsWhole(row, m) && Present(row, m, m.parts[index]).Shown?
    ensures var meta := Present(row, m, m.parts[index]).meta; var next := row.(meta := meta);
      Fits(next, m) && !HoldsWhole(next, m) && Present(next, m, m.parts[index]) == Shown(meta, None)
  {
  }

  lemma ShownAgain(rows: seq<Row>, m: Message, index: nat, k: nat, meta: Metadata)
    requires index < |m.parts| && Distinct(rows) && k < |rows| && rows[k].part == index
    requires forall r :: r in rows ==> Fits(r, m) && !HoldsWhole(r, m)
    requires var next := rows[k].(meta := meta); Fits(next, m) && !HoldsWhole(next, m)
    ensures Judge(SetMeta(rows, index, meta), m, index, None) == Present(rows[k].(meta := meta), m, m.parts[index])
  {
    hide Present, Fits, HoldsWhole;
    SetMetaAt(rows, index, meta);
    JudgeByTarget(SetMeta(rows, index, meta), m, index, None, rows[k].(meta := meta));
  }

  // ---------------------------------------------------------------- the user's own messages

  /** The row HandleMatrixMessage stores for one of the user's own text messages. */
  predicate OwnText(row: Row, m: Message) {
    && row.part == 0 && row.meta == Metadata(m.source, None, 0, 0, false)
    && m.source.role.User?
  }

  /**
   No echo: once the user's own message has its row, mirroring its source message, however many
   parts that has, sends nothing and changes nothing, whether or not edits are synced.
   */
  lemma OwnMessageIsSilent(row: Row, m: Message, index: nat)
    requires index < |m.parts| && OwnText(row, m)
    ensures Reconcile([row], m, index) == Plan([], true)
    ensures Judge([row], m, index, None) == Leave
  {
    assert Shaped([row]);
    assert row in [row] && Settling(row, m);
    SettledPlan([row], m, index);
  }

  /** Without its row the same message would be sent a second time, by either path. */
  lemma WithoutRowItIsSent(m: Message, index: nat)
    requires index < |m.parts|
    ensures Reconcile([], m, index) == Plan(Addition(m, index), true)
    ensures Judge([], m, index, None) == Add
  {
    assert Scanned([], m) == [] && Changes([], m, index) == [] && Marked([], m, index) == [];
  }
}
