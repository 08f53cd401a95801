/** The ledger of dead-letter events and operator decisions: dlq.service.ts and dlq.repository.ts
    of app/order-service/src/modules/dlq. Each command is one transaction. */
module DlqLedger {
  import opened Common
  import L = OrderLifecycle

  type Id = L.Id
  type RowId = nat
  type Time = int

  datatype Status = New | Reprocessed | Ignored

  /** The original event as far as reprocessing looks at it. */
  datatype Envelope = Envelope(eventId: Id, eventType: string, payload: string)

  datatype Row = Row(deadLetterEventId: Id, originalEvent: Option<Envelope>, originalTopic: string,
                     messageKey: Option<string>, status: Status, version: nat, reprocessedEventId: Option<Id>,
                     resolvedBy: Option<string>, resolutionComment: Option<string>, updatedAt: Time)

  datatype Auditing = ReprocessAction | IgnoreAction

  datatype Audit = Audit(row: RowId, action: Auditing, operator: string, comment: string,
                         reprocessedEventId: Option<Id>)

  datatype OutboxInsert = OutboxInsert(eventId: Id, causationId: Id, topic: string, key: string, payload: string)

  /** `audit` is the audit table, whose entries go with their row. The history, which the store
      does not keep: `history` has the entry of every decision ever accepted, `captured` every row
      ever inserted. */
  datatype Ledger = Ledger(rows: map<RowId, Row>, audit: seq<Audit>, outbox: seq<OutboxInsert>, history: seq<Audit>,
                           captured: set<RowId>, next: nat)

  /** A dead-letter event read from Kafka; no `originalEvent` if its raw text does not parse. */
  datatype DeadLetter = DeadLetter(eventId: Id, originalEvent: Option<Envelope>, originalTopic: string,
                                   key: Option<string>)

  /** What the contract of the event type makes of the corrected payload: None if validation
      throws, otherwise the payload to publish and the message key. */
  type Correction = (Envelope, string) -> Option<(string, string)>

  datatype Command =
    | Capture(record: DeadLetter, at: Time)
    | Reprocess(id: RowId, correction: Correction, version: int, operator: string, comment: string, at: Time)
    | Ignore(id: RowId, version: int, operator: string, comment: string, at: Time)
    | DeleteResolvedBefore(date: Time)

  datatype Outcome = Done(row: Row) | Deleted | NotFound | Conflict | Unprocessable

  const EMPTY := Ledger(map[], [], [], [], {}, 0)

  // ---------------------------------------------------------------- the checks

  predicate IsSpace(c: char) { c in " \t\n\r" }

  function TrimStart(s: string): string {
    if s != "" && IsSpace(s[0]) then TrimStart(s[1..]) else s
  }

  function TrimEnd(s: string): string {
    if s != "" && IsSpace(s[|s| - 1]) then TrimEnd(s[..|s| - 1]) else s
  }

  /** None: the comment is refused. */
  function RequireComment(value: string): Option<string> {
    var comment := TrimEnd(TrimStart(value));
    if |comment| < 5 || |comment| > 1000 then None else Some(comment)
  }

  /** The first failing check of a command on a row. */
  function Guard(l: Ledger, id: RowId, version: int, comment: string): Option<Outcome> {
    if RequireComment(comment).None? then Some(Unprocessable)
    else if id !in l.rows then Some(NotFound)
    else if l.rows[id].status != New then Some(Conflict)
    else if version < 1 then Some(Unprocessable)
    else if l.rows[id].version != version then Some(Conflict)
    else None
  }

  // ------------------------------------------------------------- the transactions

  predicate Captured(l: Ledger, deadLetterEventId: Id) {
    exists id :: id in l.rows && l.rows[id].deadLetterEventId == deadLetterEventId
  }

  function NewRow(d: DeadLetter, at: Time): Row {
    Row(d.eventId, d.originalEvent, d.originalTopic, d.key, New, 1, None, None, None, at)
  }

  function ResolvedRow(r: Row, status: Status, eventId: Option<Id>, operator: string, comment: string, at: Time): Row {
    r.(status := status, version := r.version + 1, reprocessedEventId := eventId, resolvedBy := Some(operator),
       resolutionComment := Some(comment), updatedAt := at)
  }

  /** The three writes of an accepted reprocess, in one transaction. */
  function AcceptReprocess(l: Ledger, id: RowId, insert: OutboxInsert, operator: string, text: string, at: Time)
    : (Ledger, Outcome)
    requires id in l.rows
  {
    var resolved := ResolvedRow(l.rows[id], Reprocessed, Some(insert.eventId), operator, text, at);
    var entry := Audit(id, ReprocessAction, operator, text, Some(insert.eventId));
    (l.(rows := l.rows[id := resolved], outbox := l.outbox + [insert], next := l.next + 1, audit := l.audit + [entry],
        history := l.history + [entry]), Done(resolved))
  }

  function AcceptIgnore(l: Ledger, id: RowId, operator: string, text: string, at: Time): (Ledger, Outcome)
    requires id in l.rows
  {
    var resolved := ResolvedRow(l.rows[id], Ignored, None, operator, text, at);
    var entry := Audit(id, IgnoreAction, operator, text, None);
    (l.(rows := l.rows[id := resolved], audit := l.audit + [entry], history := l.history + [entry]), Done(resolved))
  }

  function DoReprocess(l: Ledger, id: RowId, correction: Correction, version: int, operator: string, comment: string,
                       at: Time): (Ledger, Outcome)
  {
    var refused := Guard(l, id, version, comment);
    if refused.Some? then (l, refused.value)
    else
      var row, text := l.rows[id], RequireComment(comment).value;
      if row.originalEvent.None? then (l, Unprocessable)
      else
        match correction(row.originalEvent.value, row.originalTopic)
        case None => (l, Unprocessable)
        case Some(published) =>
          var key := if row.messageKey.Some? then row.messageKey.value else published.1;
          var cause := row.originalEvent.value.eventId;
          var insert := OutboxInsert(L.Fresh(l.next), cause, row.originalTopic, key, published.0);
          AcceptReprocess(l, id, insert, operator, text, at)
  }

  function DoIgnore(l: Ledger, id: RowId, version: int, operator: string, comment: string, at: Time)
    : (Ledger, Outcome)
  {
    var refused := Guard(l, id, version, comment);
    if refused.Some? then (l, refused.value)
    else
      AcceptIgnore(l, id, operator, RequireComment(comment).value, at)
  }

  function DoCapture(l: Ledger, d: DeadLetter, at: Time): Ledger {
    if Captured(l, d.eventId) then l
    else l.(rows := l.rows[l.next := NewRow(d, at)], captured := l.captured + {l.next}, next := l.next + 1)
  }

  predicate Outdated(row: Row, date: Time) {
    row.status != New && row.updatedAt < date
  }

  /** The entries whose row is one of `rows`, in their order: the others go by the cascade of the
      audit table's foreign key. */
  function Kept(audit: seq<Audit>, rows: set<RowId>): seq<Audit> {
    if audit == [] then []
    else
      var last := audit[|audit| - 1];
      Kept(audit[..|audit| - 1], rows) + if last.row in rows then [last] else []
  }

  /** Retention: the outdated rows and their audit entries. */
  function DoDelete(l: Ledger, date: Time): Ledger {
    var remaining := map id | id in l.rows && !Outdated(l.rows[id], date) :: l.rows[id];
    l.(rows := remaining, audit := Kept(l.audit, remaining.Keys))
  }

  function Do(l: Ledger, c: Command): Ledger {
    match c
    case Capture(d, at) => DoCapture(l, d, at)
    case Reprocess(id, correction, version, operator, comment, at) =>
      DoReprocess(l, id, correction, version, operator, comment, at).0
    case Ignore(id, version, operator, comment, at) => DoIgnore(l, id, version, operator, comment, at).0
    case DeleteResolvedBefore(date) => DoDelete(l, date)
  }

  function Run(cmds: seq<Command>): Ledger {
    if cmds == [] then EMPTY else Do(Run(cmds[..|cmds| - 1]), cmds[|cmds| - 1])
  }

  // ------------------------------------------------------------------- the service

  class DlqService {
    var rows: map<RowId, Row>
    var audit: seq<Audit>
    var outbox: seq<OutboxInsert>
    var next: nat
    ghost var history: seq<Audit>
    ghost var captured: set<RowId>

    ghost function View(): Ledger
      reads this
    {
      Ledger(rows, audit, outbox, history, captured, next)
    }

    constructor ()
      ensures View() == EMPTY
    {
      rows, audit, outbox, next := map[], [], [], 0;
      history, captured := [], {};
    }

    /** Insert or ignore on the unique dead-letter event id. */
    method Capture(d: DeadLetter, at: Time)
      modifies this
      ensures View() == DoCapture(old(View()), d, at)
    {
      if !(exists id :: id in rows && rows[id].deadLetterEventId == d.eventId) {
        rows := rows[next := NewRow(d, at)];
        captured := captured + {next};
        next := next + 1;
      }
    }

    method Reprocess(id: RowId, correction: Correction, version: int, operator: string, comment: string, at: Time)
      returns (r: Outcome)
      modifies this
      ensures (View(), r) == DoReprocess(old(View()), id, correction, version, operator, comment, at)
    {
      var text := RequireComment(comment);
      if text.None? {
        return Unprocessable;
      }
      if id !in rows {
        return NotFound;
      }
      var row := rows[id];
      if row.status != New {
        return Conflict;
      }
      if version < 1 {
        return Unprocessable;
      }
      if row.version != version {
        return Conflict;
      }
      if row.originalEvent.None? {
        return Unprocessable;
      }
      var reprocessed := correction(row.originalEvent.value, row.originalTopic);
      if reprocessed.None? {
        return Unprocessable;
      }
      var eventId := L.Fresh(next);
      next := next + 1;
      var key := if row.messageKey.Some? then row.messageKey.value else reprocessed.value.1;
      var cause := row.originalEvent.value.eventId;
      outbox := outbox + [OutboxInsert(eventId, cause, row.originalTopic, key, reprocessed.value.0)];
      row := ResolvedRow(row, Reprocessed, Some(eventId), operator, text.value, at);
      rows := rows[id := row];
      var entry := Audit(id, ReprocessAction, operator, text.value, Some(eventId));
      audit, history := audit + [entry], history + [entry];
      r := Done(row);
    }

    method Ignore(id: RowId, version: int, operator: string, comment: string, at: Time)
      returns (r: Outcome)
      modifies this
      ensures (View(), r) == DoIgnore(old(View()), id, version, operator, comment, at)
    {
      var text := RequireComment(comment);
      if text.None? {
        return Unprocessable;
      }
      if id !in rows {
        return NotFound;
      }
      var row := rows[id];
      if row.status != New {
        return Conflict;
      }
      if version < 1 {
        return Unprocessable;
      }
      if row.version != version {
        return Conflict;
      }
      row := ResolvedRow(row, Ignored, None, operator, text.value, at);
      rows := rows[id := row];
      var entry := Audit(id, IgnoreAction, operator, text.value, None);
      audit, history := audit + [entry], history + [entry];
      r := Done(row);
    }

    /** One delete statement; the foreign key of the audit table cascades. */
    method DeleteResolvedBefore(date: Time)
      modifies this
      ensures View() == DoDelete(old(View()), date)
      ensures forall id :: id in rows <==>
                id in old(rows) && (old(rows)[id].status == New || old(rows)[id].updatedAt >= date)
      ensures forall id :: Decisions(audit, id) == if id in rows then Decisions(old(audit), id) else []
    {
      rows := map id | id in rows && !Outdated(rows[id], date) :: rows[id];
      audit := Kept(audit, rows.Keys);
      forall id ensures Decisions(audit, id) == if id in rows then Decisions(old(audit), id) else [] {
        KeptDecisions(old(audit), rows.Keys, id);
      }
    }
  }

  // ---------------------------------------------------------------- the invariant

  /** The decisions on a row among `entries`, oldest first. */
  function Decisions(entries: seq<Audit>, id: RowId): seq<Audit> {
    if entries == [] then []
    else
      var last := entries[|entries| - 1];
      Decisions(entries[..|entries| - 1], id) + if last.row == id then [last] else []
  }

  predicate Announces(a: Audit) {
    a.action.ReprocessAction? && a.reprocessedEventId.Some?
  }

  /** The ids of the events that reprocessing announced, oldest first. */
  function Announced(entries: seq<Audit>): seq<Id> {
    if entries == [] then []
    else
      var last := entries[|entries| - 1];
      Announced(entries[..|entries| - 1]) + if Announces(last) then [last.reprocessedEventId.value] else []
  }

  function InsertedIds(outbox: seq<OutboxInsert>): (r: seq<Id>)
    ensures |r| == |outbox|
    ensures forall i :: 0 <= i < |r| ==> r[i] == outbox[i].eventId
  {
    seq(|outbox|, i requires 0 <= i < |outbox| => outbox[i].eventId)
  }

  /** Exactly one insert has this id, and it is the copy of the row's event. */
  ghost predicate InsertedFor(l: Ledger, row: Row, eventId: Id) {
    && row.originalEvent.Some?
    && (exists i :: 0 <= i < |l.outbox| && l.outbox[i].eventId == eventId)
    && (forall i :: 0 <= i < |l.outbox| && l.outbox[i].eventId == eventId ==>
          l.outbox[i].causationId == row.originalEvent.value.eventId && l.outbox[i].topic == row.originalTopic)
  }

  /** The entries the row's own columns call for. */
  ghost predicate Matches(entries: seq<Audit>, id: RowId, row: Row) {
    if row.status == New then entries == []
    else
      var action := if row.status == Reprocessed then ReprocessAction else IgnoreAction;
      && row.resolvedBy.Some? && row.resolutionComment.Some?
      && entries == [Audit(id, action, row.resolvedBy.value, row.resolutionComment.value, row.reprocessedEventId)]
  }

  ghost predicate RowOk(l: Ledger, id: RowId, row: Row) {
    && Matches(Decisions(l.history, id), id, row)
    && row.version == (if row.status == New then 1 else 2)
    && (row.status == Reprocessed <==> row.reprocessedEventId.Some?)
    && (row.status == Reprocessed ==> InsertedFor(l, row, row.reprocessedEventId.value))
  }

  ghost predicate RowsOk(l: Ledger) {
    && (forall id :: id in l.rows ==> id in l.captured && RowOk(l, id, l.rows[id]))
    && (forall id :: id in l.captured && id !in l.rows ==> |Decisions(l.history, id)| == 1)
    && (forall id :: id in l.captured ==> id < l.next)
    && (forall a :: a in l.history ==> a.row in l.captured)
  }

  ghost predicate OutboxOk(l: Ledger) {
    && InsertedIds(l.outbox) == Announced(l.history)
    && NoDup(InsertedIds(l.outbox))
    && (forall i :: 0 <= i < |l.outbox| ==> l.outbox[i].eventId.Fresh? && l.outbox[i].eventId.n < l.next)
  }

  /** No dead-letter event has two rows. */
  ghost predicate OneRowEach(l: Ledger) {
    forall a, b :: a in l.rows && b in l.rows && l.rows[a].deadLetterEventId == l.rows[b].deadLetterEventId ==> a == b
  }

  /** The audit table has lost exactly the entries of removed rows. */
  ghost predicate TrailOk(l: Ledger) {
    l.audit == Kept(l.history, l.rows.Keys)
  }

  ghost predicate Inv(l: Ledger) {
    RowsOk(l) && TrailOk(l) && OutboxOk(l) && OneRowEach(l)
  }

  lemma {:induction false} NoDecisions(entries: seq<Audit>, id: RowId)
    requires forall a :: a in entries ==> a.row != id
    ensures Decisions(entries, id) == []
    ensures forall rows :: Kept(entries, rows + {id}) == Kept(entries, rows)
  {
    if entries != [] {
      NoDecisions(entries[..|entries| - 1], id);
    }
  }

  lemma {:induction false} KeptDecisions(entries: seq<Audit>, rows: set<RowId>, id: RowId)
    ensures Decisions(Kept(entries, rows), id) == if id in rows then Decisions(entries, id) else []
  {
    if entries != [] {
      var init, last := entries[..|entries| - 1], entries[|entries| - 1];
      KeptDecisions(init, rows, id);
      if last.row in rows {
        assert Kept(entries, rows)[..|Kept(init, rows)|] == Kept(init, rows);
      } else {
        assert Kept(entries, rows) == Kept(init, rows);
      }
    }
  }

  lemma {:induction false} KeptTwice(entries: seq<Audit>, rows: set<RowId>, fewer: set<RowId>)
    requires fewer <= rows
    ensures Kept(Kept(entries, rows), fewer) == Kept(entries, fewer)
  {
    if entries != [] {
      var init, last := entries[..|entries| - 1], entries[|entries| - 1];
      KeptTwice(init, rows, fewer);
      if last.row in rows {
        assert Kept(entries, rows)[..|Kept(init, rows)|] == Kept(init, rows);
      } else {
        assert Kept(entries, rows) == Kept(init, rows);
      }
    }
  }

  lemma KeptAfter(entries: seq<Audit>, rows: set<RowId>, a: Audit)
    requires a.row in rows
    ensures Kept(entries + [a], rows) == Kept(entries, rows) + [a]
  {
    assert (entries + [a])[..|entries|] == entries;
  }

  /** The entries kept announce all that the entries announced if no announcing entry is gone,
      and fewer ids otherwise. */
  lemma {:induction false} KeptAnnounces(entries: seq<Audit>, rows: set<RowId>)
    ensures |Announced(Kept(entries, rows))| <= |Announced(entries)|
    ensures (forall a :: a in entries && Announces(a) ==> a.row in rows)
      ==> Announced(Kept(entries, rows)) == Announced(entries)
    ensures (exists a :: a in entries && Announces(a) && a.row !in rows)
      ==> |Announced(Kept(entries, rows))| < |Announced(entries)|
  {
    if entries != [] {
      var init, last := entries[..|entries| - 1], entries[|entries| - 1];
      assert entries == init + [last];
      KeptAnnounces(init, rows);
      if last.row in rows {
        AnnouncedAfter(Kept(init, rows), last);
      } else {
        assert Kept(entries, rows) == Kept(init, rows);
      }
    }
  }

  lemma CaptureKeeps(l: Ledger, d: DeadLetter, at: Time)
    requires Inv(l)
    ensures Inv(DoCapture(l, d, at))
  {
    NoDecisions(l.history, l.next);
    var l' := DoCapture(l, d, at);
    if l' != l {
      assert l'.rows.Keys == l.rows.Keys + {l.next};
    }
    forall id | id in l'.rows ensures RowOk(l', id, l'.rows[id]) {
      if id in l.rows && id != l.next {
        assert RowOk(l, id, l.rows[id]);
      }
    }
  }

  /** Nothing, or one insert with the next fresh id, was added to the outbox. */
  ghost predicate OutboxGrew(l: Ledger, l': Ledger) {
    if l'.outbox == l.outbox then l'.next == l.next
    else
      && l'.next == l.next + 1
      && |l'.outbox| == |l.outbox| + 1 && l'.outbox[..|l.outbox|] == l.outbox
      && l'.outbox[|l.outbox|].eventId == L.Fresh(l.next)
  }

  /** What one more decision on row `id` leaves as it was. */
  lemma OtherRows(l: Ledger, l': Ledger, a: Audit, other: RowId)
    requires l'.history == l.history + [a] && other != a.row
    requires OutboxGrew(l, l') && OutboxOk(l)
    ensures Decisions(l'.history, other) == Decisions(l.history, other)
    ensures forall row :: RowOk(l, other, row) ==> RowOk(l', other, row)
  {
    assert l'.history[..|l.history|] == l.history;
    forall row | RowOk(l, other, row) ensures RowOk(l', other, row) {
      if row.status == Reprocessed {
        var eid := row.reprocessedEventId.value;
        var i :| 0 <= i < |l.outbox| && l.outbox[i].eventId == eid;
        assert l'.outbox[i] == l.outbox[i];
        assert forall j :: 0 <= j < |l.outbox| ==> l'.outbox[j] == l.outbox[j];
      }
    }
  }

  lemma ResolveKeepsRows(l: Ledger, l': Ledger, id: RowId, a: Audit)
    requires Inv(l) && id in l.rows && l.rows[id].status == New && a.row == id
    requires l'.rows.Keys == l.rows.Keys && l'.captured == l.captured && l'.history == l.history + [a]
    requires forall other :: other in l.rows && other != id ==> l'.rows[other] == l.rows[other]
    requires OutboxGrew(l, l')
    requires Decisions(l'.history, id) == [a] ==> RowOk(l', id, l'.rows[id])
    ensures RowsOk(l')
  {
    assert l'.history[..|l.history|] == l.history;
    assert RowOk(l, id, l.rows[id]);
    assert Decisions(l'.history, id) == [a];
    forall other | other in l'.rows ensures RowOk(l', other, l'.rows[other]) {
      if other != id {
        OtherRows(l, l', a, other);
      }
    }
    forall other | other in l'.captured && other !in l'.rows ensures |Decisions(l'.history, other)| == 1 {
      OtherRows(l, l', a, other);
    }
  }

  lemma AnnouncedAfter(entries: seq<Audit>, a: Audit)
    ensures Announced(entries + [a]) == Announced(entries) + if Announces(a) then [a.reprocessedEventId.value] else []
  {
    assert (entries + [a])[..|entries|] == entries;
  }

  lemma NewIdIsNew(l: Ledger, eventId: Id)
    requires OutboxOk(l) && eventId == L.Fresh(l.next)
    ensures NoDup(InsertedIds(l.outbox) + [eventId])
  {
    forall i | 0 <= i < |l.outbox| ensures InsertedIds(l.outbox)[i] != eventId {
      assert InsertedIds(l.outbox)[i] == l.outbox[i].eventId;
    }
  }

  lemma InsertKeepsOutbox(l: Ledger, l': Ledger, a: Audit, insert: OutboxInsert)
    requires OutboxOk(l) && l'.next == l.next + 1 && insert.eventId == L.Fresh(l.next)
    requires l'.outbox == l.outbox + [insert] && l'.history == l.history + [a]
    requires a.action == ReprocessAction && a.reprocessedEventId == Some(insert.eventId)
    ensures OutboxOk(l')
  {
    AnnouncedAfter(l.history, a);
    NewIdIsNew(l, insert.eventId);
    assert InsertedIds(l'.outbox) == InsertedIds(l.outbox) + [insert.eventId];
    forall i | 0 <= i < |l'.outbox| ensures l'.outbox[i].eventId.Fresh? && l'.outbox[i].eventId.n < l'.next {
      assert i < |l.outbox| ==> l'.outbox[i] == l.outbox[i];
    }
  }

  lemma ReprocessedRowOk(l: Ledger, l': Ledger, id: RowId, row: Row, a: Audit, insert: OutboxInsert)
    requires OutboxOk(l) && l'.outbox == l.outbox + [insert] && insert.eventId == L.Fresh(l.next)
    requires row.status == Reprocessed && row.version == 2 && row.originalEvent.Some?
    requires row.reprocessedEventId == Some(insert.eventId)
    requires insert.causationId == row.originalEvent.value.eventId && insert.topic == row.originalTopic
    requires row.resolvedBy == Some(a.operator) && row.resolutionComment == Some(a.comment)
    requires a == Audit(id, ReprocessAction, a.operator, a.comment, Some(insert.eventId))
    requires Decisions(l'.history, id) == [a]
    ensures RowOk(l', id, row)
  {
    assert l'.outbox[|l.outbox|] == insert;
    assert forall i :: 0 <= i < |l.outbox| ==> l'.outbox[i] == l.outbox[i];
  }

  lemma DecisionsAfter(entries: seq<Audit>, a: Audit)
    requires Decisions(entries, a.row) == []
    ensures Decisions(entries + [a], a.row) == [a]
  {
    assert (entries + [a])[..|entries|] == entries;
  }

  /** The ledger after an accepted reprocess. */
  lemma ReprocessedKeeps(l: Ledger, id: RowId, operator: string, comment: string, at: Time, insert: OutboxInsert)
    requires Inv(l) && id in l.rows && l.rows[id].status == New && l.rows[id].originalEvent.Some?
    requires insert.eventId == L.Fresh(l.next) && insert.topic == l.rows[id].originalTopic
    requires insert.causationId == l.rows[id].originalEvent.value.eventId
    ensures Inv(AcceptReprocess(l, id, insert, operator, comment, at).0)
  {
    var a := Audit(id, ReprocessAction, operator, comment, Some(insert.eventId));
    var row := ResolvedRow(l.rows[id], Reprocessed, Some(insert.eventId), operator, comment, at);
    var l' := AcceptReprocess(l, id, insert, operator, comment, at).0;
    assert RowOk(l, id, l.rows[id]);
    DecisionsAfter(l.history, a);
    assert l'.outbox[..|l.outbox|] == l.outbox;
    ReprocessedRowOk(l, l', id, row, a, insert);
    ResolveKeepsRows(l, l', id, a);
    KeptAfter(l.history, l.rows.Keys, a);
    InsertKeepsOutbox(l, l', a, insert);
  }

  lemma ReprocessKeeps(l: Ledger, id: RowId, correction: Correction, version: int, operator: string, comment: string,
                       at: Time)
    requires Inv(l)
    ensures Inv(DoReprocess(l, id, correction, version, operator, comment, at).0)
  {
    if Guard(l, id, version, comment).None? && l.rows[id].originalEvent.Some? {
      var row := l.rows[id];
      var published := correction(row.originalEvent.value, row.originalTopic);
      if published.Some? {
        var key := if row.messageKey.Some? then row.messageKey.value else published.value.1;
        var cause := row.originalEvent.value.eventId;
        var insert := OutboxInsert(L.Fresh(l.next), cause, row.originalTopic, key, published.value.0);
        ReprocessedKeeps(l, id, operator, RequireComment(comment).value, at, insert);
      }
    }
  }

  /** The ledger after an accepted ignore. */
  lemma IgnoredKeeps(l: Ledger, id: RowId, operator: string, comment: string, at: Time)
    requires Inv(l) && id in l.rows && l.rows[id].status == New
    ensures Inv(AcceptIgnore(l, id, operator, comment, at).0)
  {
    var a := Audit(id, IgnoreAction, operator, comment, None);
    var l' := AcceptIgnore(l, id, operator, comment, at).0;
    assert RowOk(l, id, l.rows[id]);
    DecisionsAfter(l.history, a);
    AnnouncedAfter(l.history, a);
    KeptAfter(l.history, l.rows.Keys, a);
    ResolveKeepsRows(l, l', id, a);
  }

  lemma IgnoreKeeps(l: Ledger, id: RowId, version: int, operator: string, comment: string, at: Time)
    requires Inv(l)
    ensures Inv(DoIgnore(l, id, version, operator, comment, at).0)
  {
    if Guard(l, id, version, comment).None? {
      IgnoredKeeps(l, id, operator, RequireComment(comment).value, at);
    }
  }

  lemma DeleteKeeps(l: Ledger, date: Time)
    requires Inv(l)
    ensures Inv(DoDelete(l, date))
  {
    var l' := DoDelete(l, date);
    KeptTwice(l.history, l.rows.Keys, l'.rows.Keys);
    forall id | id in l'.rows ensures RowOk(l', id, l'.rows[id]) {
      assert RowOk(l, id, l.rows[id]);
    }
    forall id | id in l'.captured && id !in l'.rows ensures |Decisions(l'.history, id)| == 1 {
      if id in l.rows {
        assert RowOk(l, id, l.rows[id]);
      }
    }
  }

  lemma {:induction false} RunKeepsInv(cmds: seq<Command>)
    ensures Inv(Run(cmds))
  {
    if cmds != [] {
      var l := Run(cmds[..|cmds| - 1]);
      RunKeepsInv(cmds[..|cmds| - 1]);
      match cmds[|cmds| - 1]
      case Capture(d, at) => CaptureKeeps(l, d, at);
      case Reprocess(id, correction, version, operator, comment, at) =>
        ReprocessKeeps(l, id, correction, version, operator, comment, at);
      case Ignore(id, version, operator, comment, at) => IgnoreKeeps(l, id, version, operator, comment, at);
      case DeleteResolvedBefore(date) => DeleteKeeps(l, date);
    }
  }

  // ------------------------------------------------------------------ the theorems

  /** Under any interleaving a row is decided at most once: never while it is NEW, once when it
      has left NEW, also if retention removed it since. */
  lemma EveryRowIsDecidedOnce(cmds: seq<Command>, id: RowId)
    requires id in Run(cmds).captured
    ensures var l := Run(cmds);
      && |Decisions(l.history, id)| == (if id in l.rows && l.rows[id].status == New then 0 else 1)
      && (id in l.rows ==> Matches(Decisions(l.history, id), id, l.rows[id]))
      && (id in l.rows ==> l.rows[id].version == 1 + |Decisions(l.history, id)|)
  {
    RunKeepsInv(cmds);
    var l := Run(cmds);
    if id in l.rows {
      assert RowOk(l, id, l.rows[id]);
    }
  }

  /** The audit table in every state: nothing for a NEW row, one entry that agrees with the
      columns of the row for a REPROCESSED or IGNORED one, nothing for a removed one. */
  lemma AuditTrailFollowsTheRow(cmds: seq<Command>, id: RowId)
    ensures var l := Run(cmds);
      && (id in l.rows ==> Matches(Decisions(l.audit, id), id, l.rows[id]))
      && (id !in l.rows ==> Decisions(l.audit, id) == [])
  {
    RunKeepsInv(cmds);
    var l := Run(cmds);
    KeptDecisions(l.history, l.rows.Keys, id);
    if id in l.rows {
      assert RowOk(l, id, l.rows[id]);
    }
  }

  /** The outbox has one insert for each reprocess decision ever accepted, in the same order and
      with the announced id, and no other; the insert of a REPROCESSED row names the original
      event as its cause. */
  lemma OneInsertPerReprocess(cmds: seq<Command>)
    ensures var l := Run(cmds);
      && InsertedIds(l.outbox) == Announced(l.history) && NoDup(InsertedIds(l.outbox))
      && forall id :: id in l.rows && l.rows[id].status == Reprocessed ==>
           l.rows[id].reprocessedEventId.Some? && InsertedFor(l, l.rows[id], l.rows[id].reprocessedEventId.value)
  {
    RunKeepsInv(cmds);
    var l := Run(cmds);
    forall id | id in l.rows && l.rows[id].status == Reprocessed
      ensures l.rows[id].reprocessedEventId.Some? && InsertedFor(l, l.rows[id], l.rows[id].reprocessedEventId.value)
    {
      assert RowOk(l, id, l.rows[id]);
    }
  }

  /** The audit table accounts for every insert until retention removes a row that was
      reprocessed, and never again after that. */
  lemma InsertsAreAuditedExactlyWhen(cmds: seq<Command>)
    ensures var l := Run(cmds);
      InsertedIds(l.outbox) == Announced(l.audit)
      <==> forall a :: a in l.history && Announces(a) ==> a.row in l.rows
  {
    RunKeepsInv(cmds);
    var l := Run(cmds);
    KeptAnnounces(l.history, l.rows.Keys);
  }

  /** Of two commands on one row at most one is accepted, whatever happens in between. */
  lemma SecondDecisionRefused(cmds: seq<Command>, c: Command, later: seq<Command>, c': Command)
    requires Accepted(Run(cmds), c) && Accepted(Run(cmds + [c] + later), c')
    ensures Target(c') != Target(c)
  {
    AcceptedDecides(cmds, c);
    DecisionsStay(cmds + [c], later, Target(c));
    AcceptedWasNew(cmds + [c] + later, c');
  }

  lemma AcceptedWasNew(cmds: seq<Command>, c: Command)
    requires Accepted(Run(cmds), c)
    ensures Decisions(Run(cmds).history, Target(c)) == []
  {
    RunKeepsInv(cmds);
    var l := Run(cmds);
    assert l.rows[Target(c)].status == New;
    assert RowOk(l, Target(c), l.rows[Target(c)]);
  }

  lemma AcceptedDecides(cmds: seq<Command>, c: Command)
    requires Accepted(Run(cmds), c)
    ensures |Decisions(Run(cmds + [c]).history, Target(c))| == 1
  {
    var l, l' := Run(cmds), Run(cmds + [c]);
    assert (cmds + [c])[..|cmds|] == cmds;
    AcceptedWasNew(cmds, c);
    var a := l'.history[|l.history|];
    assert l'.history == l.history + [a];
    DecisionsAfter(l.history, a);
  }

  ghost predicate IsDecision(c: Command) {
    c.Reprocess? || c.Ignore?
  }

  ghost function Target(c: Command): RowId
    requires IsDecision(c)
  {
    c.id
  }

  /** The command changes its row. */
  ghost predicate Accepted(l: Ledger, c: Command) {
    && IsDecision(c)
    && if c.Reprocess? then DoReprocess(l, c.id, c.correction, c.version, c.operator, c.comment, c.at).1.Done?
       else DoIgnore(l, c.id, c.version, c.operator, c.comment, c.at).1.Done?
  }

  lemma {:induction false} DecisionsStay(cmds: seq<Command>, later: seq<Command>, id: RowId)
    ensures Decisions(Run(cmds).history, id) <= Decisions(Run(cmds + later).history, id)
  {
    if later == [] {
      assert cmds + later == cmds;
    } else {
      var init := later[..|later| - 1];
      DecisionsStay(cmds, init, id);
      assert (cmds + later)[..|cmds + later| - 1] == cmds + init;
      DecisionsGrow(Run(cmds + init), later[|later| - 1], id);
    }
  }

  lemma DecisionsGrow(l: Ledger, c: Command, id: RowId)
    ensures Decisions(l.history, id) <= Decisions(Do(l, c).history, id)
  {
    HistoryGrows(l, c);
    var m := Do(l, c);
    if m.history != l.history {
      assert m.history[..|l.history|] == l.history;
    }
  }

  lemma HistoryGrows(l: Ledger, c: Command)
    ensures Do(l, c).history == l.history || exists a :: Do(l, c).history == l.history + [a]
  {
  }

  /** A redelivered dead-letter event changes nothing while its row exists, whatever was decided
      about it. */
  lemma RecaptureChangesNothing(cmds: seq<Command>, d: DeadLetter, at: Time, id: RowId)
    requires id in Run(cmds).rows && Run(cmds).rows[id].deadLetterEventId == d.eventId
    ensures Run(cmds + [Capture(d, at)]) == Run(cmds)
  {
    assert (cmds + [Capture(d, at)])[..|cmds|] == cmds;
  }

  /** A captured event that has no row gets one, NEW, with what was captured; no other row changes. */
  lemma CaptureStoresTheEvent(cmds: seq<Command>, d: DeadLetter, at: Time)
    requires forall id :: id in Run(cmds).rows ==> Run(cmds).rows[id].deadLetterEventId != d.eventId
    ensures var l, l' := Run(cmds), Run(cmds + [Capture(d, at)]);
      exists id :: id !in l.captured && l'.rows.Keys == l.rows.Keys + {id}
        && (forall other :: other in l.rows ==> l'.rows[other] == l.rows[other])
        && l'.rows[id] == Row(d.eventId, d.originalEvent, d.originalTopic, d.key, New, 1, None, None, None, at)
  {
    assert (cmds + [Capture(d, at)])[..|cmds|] == cmds;
    RunKeepsInv(cmds);
    var l, l' := Run(cmds), Run(cmds + [Capture(d, at)]);
    assert l'.rows[l.next].deadLetterEventId == d.eventId;
  }

  // ------------------------------------------------------ what an accepted command does

  predicate AllSpace(s: string) {
    forall i :: 0 <= i < |s| ==> s[i] in " \t\n\r"
  }

  /** Neither begins nor ends with a space. */
  predicate Tight(s: string) {
    s != "" ==> s[0] !in " \t\n\r" && s[|s| - 1] !in " \t\n\r"
  }

  /** `text` is `value` without the spaces around it. */
  ghost predicate Trims(value: string, text: string) {
    Tight(text) && exists before, after :: AllSpace(before) && AllSpace(after) && value == before + text + after
  }

  lemma {:induction false} TrimStartCuts(value: string) returns (before: string)
    ensures AllSpace(before) && value == before + TrimStart(value)
    ensures TrimStart(value) != "" ==> !IsSpace(TrimStart(value)[0])
  {
    before := "";
    if value != "" && IsSpace(value[0]) {
      var more := TrimStartCuts(value[1..]);
      before := [value[0]] + more;
      assert value == [value[0]] + value[1..];
    }
  }

  lemma {:induction false} TrimEndCuts(value: string) returns (after: string)
    ensures AllSpace(after) && value == TrimEnd(value) + after
    ensures TrimEnd(value) != "" ==> !IsSpace(TrimEnd(value)[|TrimEnd(value)| - 1]) && TrimEnd(value)[0] == value[0]
  {
    after := "";
    if value != "" && IsSpace(value[|value| - 1]) {
      var more := TrimEndCuts(value[..|value| - 1]);
      after := more + [value[|value| - 1]];
      assert value == value[..|value| - 1] + [value[|value| - 1]];
    }
  }

  lemma CommentIsTrimmed(value: string)
    ensures Trims(value, TrimEnd(TrimStart(value)))
  {
    var before := TrimStartCuts(value);
    var after := TrimEndCuts(TrimStart(value));
    assert value == before + TrimEnd(TrimStart(value)) + after;
  }

  /** The comment an accepted command puts on record. */
  ghost predicate Comments(value: string, text: string) {
    Trims(value, text) && 5 <= |text| <= 1000
  }

  lemma OneTrim(value: string, text: string)
    requires Trims(value, text)
    ensures text == TrimEnd(TrimStart(value))
  {
    var before, after :| AllSpace(before) && AllSpace(after) && value == before + text + after;
    if text == "" {
      assert value == before + after;
      SpaceTrims(value);
    } else {
      assert value == before + (text + after);
      TextTrims(before, text, after);
    }
  }

  lemma TextTrims(before: string, text: string, after: string)
    requires AllSpace(before) && AllSpace(after) && text != "" && Tight(text)
    ensures TrimEnd(TrimStart(before + (text + after))) == text
  {
    StartTrims(before, text + after);
    EndTrims(text, after);
  }

  lemma {:induction false} SpaceTrims(s: string)
    requires AllSpace(s)
    ensures TrimStart(s) == ""
  {
    if s != "" {
      SpaceTrims(s[1..]);
    }
  }

  lemma {:induction false} StartTrims(before: string, s: string)
    requires AllSpace(before) && s != "" && !IsSpace(s[0])
    ensures TrimStart(before + s) == s
  {
    if before == "" {
      assert before + s == s;
    } else {
      assert (before + s)[1..] == before[1..] + s;
      StartTrims(before[1..], s);
    }
  }

  lemma {:induction false} EndTrims(s: string, after: string)
    requires AllSpace(after) && s != "" && !IsSpace(s[|s| - 1])
    ensures TrimEnd(s + after) == s
  {
    if after == "" {
      assert s + after == s;
    } else {
      assert (s + after)[..|s + after| - 1] == s + after[..|after| - 1];
      EndTrims(s, after[..|after| - 1]);
    }
  }

  /** A command is accepted exactly if its comment has 5 to 1000 characters between the spaces around
      it, its row exists, is NEW and has the version the operator saw, and, to reprocess, the
      original event can be read and its contract takes the corrected payload. */
  lemma AcceptedExactlyWhen(l: Ledger, c: Command)
    requires IsDecision(c)
    ensures Accepted(l, c) <==>
              && (exists text :: Comments(c.comment, text))
              && c.id in l.rows && l.rows[c.id].status == New && c.version >= 1 && l.rows[c.id].version == c.version
              && (c.Reprocess? ==>
                    && l.rows[c.id].originalEvent.Some?
                    && c.correction(l.rows[c.id].originalEvent.value, l.rows[c.id].originalTopic).Some?)
  {
    CommentIsTrimmed(c.comment);
    var text := TrimEnd(TrimStart(c.comment));
    if RequireComment(c.comment).Some? {
      assert Comments(c.comment, text);
    }
    forall other | Comments(c.comment, other) ensures RequireComment(c.comment).Some? {
      OneTrim(c.comment, other);
    }
  }

  /** The columns an accepted command writes; the others stay. */
  ghost predicate ResolvedBy(row: Row, row': Row, c: Command)
    requires IsDecision(c)
  {
    && row' == row.(status := row'.status, version := row.version + 1, reprocessedEventId := row'.reprocessedEventId,
                    resolvedBy := Some(c.operator), resolutionComment := row'.resolutionComment, updatedAt := c.at)
    && row'.status == (if c.Reprocess? then Reprocessed else Ignored)
    && row'.resolutionComment.Some? && Comments(c.comment, row'.resolutionComment.value)
  }

  /** An accepted reprocess puts one event into the outbox: the corrected payload, under an id that no
      insert had, for the topic, the key and the cause of the original one; the row and its audit
      entry name it. */
  lemma ReprocessPublishesTheCorrection(cmds: seq<Command>, c: Command)
    requires c.Reprocess? && Accepted(Run(cmds), c)
    ensures var l, l' := Run(cmds), Run(cmds + [c]);
      && c.id in l.rows && l.rows[c.id].originalEvent.Some?
      && var row, published := l.rows[c.id], c.correction(l.rows[c.id].originalEvent.value, l.rows[c.id].originalTopic);
      && published.Some? && c.id in l'.rows && ResolvedBy(row, l'.rows[c.id], c)
      && l'.rows == l.rows[c.id := l'.rows[c.id]]
      && |l'.outbox| == |l.outbox| + 1 && l'.outbox[..|l.outbox|] == l.outbox
      && var insert := l'.outbox[|l.outbox|];
      && insert.payload == published.value.0 && insert.topic == row.originalTopic
      && insert.key == (match row.messageKey case Some(key) => key case None => published.value.1)
      && insert.causationId == row.originalEvent.value.eventId && insert.eventId !in InsertedIds(l.outbox)
      && l'.rows[c.id].reprocessedEventId == Some(insert.eventId)
      && l'.audit == l.audit + [Audit(c.id, ReprocessAction, c.operator, l'.rows[c.id].resolutionComment.value,
                                      Some(insert.eventId))]
  {
    assert (cmds + [c])[..|cmds|] == cmds;
    RunKeepsInv(cmds);
    CommentIsTrimmed(c.comment);
    NewIdIsNew(Run(cmds), L.Fresh(Run(cmds).next));
    var l, l' := Run(cmds), Run(cmds + [c]);
    var ids, id := InsertedIds(l.outbox), L.Fresh(l.next);
    assert forall i :: 0 <= i < |ids| ==> (ids + [id])[i] == ids[i] && (ids + [id])[|ids|] == id;
  }

  /** An accepted ignore resolves the row and publishes nothing. */
  lemma IgnoreResolvesTheRow(cmds: seq<Command>, c: Command)
    requires c.Ignore? && Accepted(Run(cmds), c)
    ensures var l, l' := Run(cmds), Run(cmds + [c]);
      && c.id in l.rows && c.id in l'.rows && ResolvedBy(l.rows[c.id], l'.rows[c.id], c)
      && l'.rows == l.rows[c.id := l'.rows[c.id]] && l'.rows[c.id].reprocessedEventId.None? && l'.outbox == l.outbox
      && l'.audit == l.audit + [Audit(c.id, IgnoreAction, c.operator, l'.rows[c.id].resolutionComment.value, None)]
  {
    assert (cmds + [c])[..|cmds|] == cmds;
    CommentIsTrimmed(c.comment);
  }

  /** NEW rows stay until somebody decides. */
  lemma NewRowsStay(cmds: seq<Command>, c: Command, id: RowId)
    requires id in Run(cmds).rows && Run(cmds).rows[id].status == New
    ensures id in Run(cmds + [c]).rows
    ensures Run(cmds + [c]).rows[id] == Run(cmds).rows[id] || (Accepted(Run(cmds), c) && Target(c) == id)
    ensures c.Capture? && c.record.eventId == Run(cmds).rows[id].deadLetterEventId ==> Run(cmds + [c]) == Run(cmds)
  {
    assert (cmds + [c])[..|cmds|] == cmds;
    RunKeepsInv(cmds);
  }
}
