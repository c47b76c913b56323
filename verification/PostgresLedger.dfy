/** The PostgreSQL ledger: a hash-chained table that transactions extend by separate reads and one
    insert, guarded only by two uniqueness constraints. */
module PostgresLedger {
  import opened Basics
  import opened Values
  import opened LedgerClient

  /** The fields the event hash covers. */
  datatype Canonical = Canonical(
    eventId: string,
    traceId: string,
    decisionId: string,
    stepType: string,
    stepId: string,
    sequenceNo: nat,
    prevHash: Option<string>)

  /** SHA-256 of the canonical JSON text. */
  type Digest = Canonical -> string

  datatype Row = Row(event: LedgerEvent, sequenceNo: nat, prevHash: Option<string>, eventHash: string)

  type Table = seq<Row>

  function CanonicalOf(event: LedgerEvent, sequenceNo: nat, prevHash: Option<string>): Canonical {
    Canonical(event.eventId, event.traceId, event.decisionId, event.stepType, event.stepId, sequenceNo, prevHash)
  }

  function ComputeEventHash(h: Digest, event: LedgerEvent, sequenceNo: nat, prevHash: Option<string>): string {
    h(CanonicalOf(event, sequenceNo, prevHash))
  }

  // ---------------------------------------------------------------- queries

  predicate HasEvent(table: Table, id: string) {
    exists i :: 0 <= i < |table| && table[i].event.eventId == id
  }

  /** The rows of one trace in commit order. */
  function RowsOf(table: Table, traceId: string): Table {
    if table == [] then []
    else
      var n := |table| - 1;
      var before := RowsOf(table[..n], traceId);
      if table[n].event.traceId == traceId then before + [table[n]] else before
  }

  /** COALESCE(MAX(sequence_no), 0). */
  function MaxSequence(rows: Table): nat {
    if rows == [] then 0
    else
      var n := |rows| - 1;
      var m := MaxSequence(rows[..n]);
      if rows[n].sequenceNo > m then rows[n].sequenceNo else m
  }

  function NextSequence(table: Table, traceId: string): nat {
    MaxSequence(RowsOf(table, traceId)) + 1
  }

  /** The rows by ascending sequence_no. */
  function BySequence(rows: Table): Table {
    if rows == [] then []
    else
      var n := |rows| - 1;
      InsertBySequence(BySequence(rows[..n]), rows[n])
  }

  function InsertBySequence(sorted: Table, row: Row): Table {
    if sorted == [] then [row]
    else
      var n := |sorted| - 1;
      if sorted[n].sequenceNo <= row.sequenceNo then sorted + [row]
      else InsertBySequence(sorted[..n], row) + [sorted[n]]
  }

  /** ORDER BY sequence_no DESC LIMIT 1. */
  function LastHash(table: Table, traceId: string): Option<string> {
    var sorted := BySequence(RowsOf(table, traceId));
    if sorted == [] then None else Some(sorted[|sorted| - 1].eventHash)
  }

  /** The primary key and the (trace_id, sequence_no) constraint. */
  predicate ConstraintsAllow(table: Table, row: Row) {
    !HasEvent(table, row.event.eventId)
    && forall i :: 0 <= i < |table| ==>
         !(table[i].event.traceId == row.event.traceId && table[i].sequenceNo == row.sequenceNo)
  }

  // ---------------------------------------------------------------- the invariant of the table

  /** Row `i` carries number i + 1, the hash of the row before it (none for the first), and its own hash. */
  ghost predicate Fits(h: Digest, rows: Table, i: nat)
    requires i < |rows|
  {
    && rows[i].sequenceNo == i + 1
    && rows[i].prevHash == (if i == 0 then None else Some(rows[i - 1].eventHash))
    && rows[i].eventHash == ComputeEventHash(h, rows[i].event, rows[i].sequenceNo, rows[i].prevHash)
  }

  ghost predicate IsChain(h: Digest, rows: Table) {
    forall i :: 0 <= i < |rows| ==> Fits(h, rows, i)
  }

  ghost predicate DistinctEvents(table: Table) {
    forall i, j :: 0 <= i < j < |table| ==> table[i].event.eventId != table[j].event.eventId
  }

  ghost predicate TableInv(h: Digest, table: Table) {
    (forall t :: IsChain(h, RowsOf(table, t))) && DistinctEvents(table)
  }

  lemma ChainPrefix(h: Digest, rows: Table, n: nat)
    requires IsChain(h, rows) && n <= |rows|
    ensures IsChain(h, rows[..n])
  {
    forall i | 0 <= i < n ensures Fits(h, rows[..n], i) { assert Fits(h, rows, i); }
  }

  lemma ChainExtends(h: Digest, rows: Table, row: Row)
    requires IsChain(h, rows) && Fits(h, rows + [row], |rows|)
    ensures IsChain(h, rows + [row])
  {
    forall i | 0 <= i < |rows| + 1 ensures Fits(h, rows + [row], i) {
      if i < |rows| { assert Fits(h, rows, i); }
    }
  }

  lemma {:induction false} ChainIsSorted(h: Digest, rows: Table)
    requires IsChain(h, rows)
    ensures BySequence(rows) == rows && MaxSequence(rows) == |rows|
  {
    if rows != [] {
      var n := |rows| - 1;
      ChainPrefix(h, rows, n);
      ChainIsSorted(h, rows[..n]);
      assert Fits(h, rows, n);
      if n > 0 { assert Fits(h, rows, n - 1); }
      assert rows == rows[..n] + [rows[n]];
    }
  }

  /** In a chained table the next number is one more than the number of rows, and the last hash is
      that of the last row. */
  lemma QueriesOnChain(h: Digest, table: Table, traceId: string)
    requires TableInv(h, table)
    ensures var rows := RowsOf(table, traceId);
            && NextSequence(table, traceId) == |rows| + 1
            && LastHash(table, traceId) == (if rows == [] then None else Some(rows[|rows| - 1].eventHash))
            && BySequence(rows) == rows
  {
    ChainIsSorted(h, RowsOf(table, traceId));
  }

  lemma RowsOfAppend(table: Table, row: Row, traceId: string)
    ensures RowsOf(table + [row], traceId)
         == if row.event.traceId == traceId then RowsOf(table, traceId) + [row] else RowsOf(table, traceId)
  {
    assert (table + [row])[..|table|] == table;
  }

  lemma {:induction false} RowsOfMembers(table: Table, traceId: string, row: Row)
    ensures row in RowsOf(table, traceId) <==> row in table && row.event.traceId == traceId
  {
    if table != [] {
      var n := |table| - 1;
      RowsOfMembers(table[..n], traceId, row);
      assert table == table[..n] + [table[n]];
    }
  }

  // ---------------------------------------------------------------- interleaved appends

  datatype Verdict = Committed | FoundDuplicate | RolledBack

  /** How far one append has come. */
  datatype Txn =
    | Begun(event: LedgerEvent)
    | Checked(event: LedgerEvent)
    | Numbered(event: LedgerEvent, sequenceNo: nat)
    | Linked(event: LedgerEvent, sequenceNo: nat, prevHash: Option<string>)
    | Finished(event: LedgerEvent, verdict: Verdict)

  datatype Database = Database(table: Table, txns: map<nat, Txn>)

  /** `Advance` runs the next statement of an append, `Fail` breaks its connection. */
  datatype Action = Begin(txn: nat, event: LedgerEvent) | Advance(txn: nat) | Fail(txn: nat)

  function RowFor(h: Digest, event: LedgerEvent, sequenceNo: nat, prevHash: Option<string>): Row {
    Row(event, sequenceNo, prevHash, ComputeEventHash(h, event, sequenceNo, prevHash))
  }

  /** One statement of one append, on the table as it is committed at that moment. */
  function Advanced(h: Digest, table: Table, txn: Txn): (Table, Txn) {
    match txn
    case Begun(e) =>
      (table, if HasEvent(table, e.eventId) then Finished(e, FoundDuplicate) else Checked(e))
    case Checked(e) => (table, Numbered(e, NextSequence(table, e.traceId)))
    case Numbered(e, s) => (table, Linked(e, s, LastHash(table, e.traceId)))
    case Linked(e, s, p) =>
      var row := RowFor(h, e, s, p);
      if ConstraintsAllow(table, row) then (table + [row], Finished(e, Committed))
      else (table, Finished(e, RolledBack))
    case Finished(_, _) => (table, txn)
  }

  function Next(h: Digest, db: Database, action: Action): Database {
    match action
    case Begin(t, e) => if t in db.txns then db else db.(txns := db.txns[t := Begun(e)])
    case Advance(t) =>
      if t !in db.txns then db
      else
        var (table, txn) := Advanced(h, db.table, db.txns[t]);
        Database(table, db.txns[t := txn])
    case Fail(t) =>
      if t !in db.txns || db.txns[t].Finished? then db
      else db.(txns := db.txns[t := Finished(db.txns[t].event, RolledBack)])
  }

  function Run(h: Digest, db: Database, actions: seq<Action>): Database {
    if actions == [] then db
    else
      var n := |actions| - 1;
      Next(h, Run(h, db, actions[..n]), actions[n])
  }

  /** What an append still holds to be true: a number read may be overtaken, but if it is still the
      next one, then the hash read is still the last one. */
  ghost predicate TxnInv(table: Table, txn: Txn) {
    match txn
    case Numbered(e, s) => 1 <= s <= |RowsOf(table, e.traceId)| + 1
    case Linked(e, s, p) =>
      1 <= s <= |RowsOf(table, e.traceId)| + 1
      && (s == |RowsOf(table, e.traceId)| + 1 ==> p == LastHash(table, e.traceId))
    case Finished(e, v) =>
      (v.Committed? ==> exists i :: 0 <= i < |table| && table[i].event == e)
      && (v.FoundDuplicate? ==> HasEvent(table, e.eventId))
    case _ => true
  }

  ghost predicate IsCommit(db: Database, t: nat, e: LedgerEvent) {
    t in db.txns && db.txns[t] == Finished(e, Committed)
  }

  ghost predicate HasCommit(db: Database, e: LedgerEvent) {
    exists t: nat :: IsCommit(db, t, e)
  }

  ghost predicate CommitsDiffer(db: Database) {
    forall t: nat, u: nat, d, e :: IsCommit(db, t, d) && IsCommit(db, u, e) && t != u ==> d.eventId != e.eventId
  }

  /** Rows and committed appends correspond one to one. */
  ghost predicate RowsAreCommits(db: Database) {
    (forall i :: 0 <= i < |db.table| ==> HasCommit(db, db.table[i].event)) && CommitsDiffer(db)
  }

  ghost predicate TxnsInv(db: Database) {
    forall t :: t in db.txns ==> TxnInv(db.table, db.txns[t])
  }

  ghost predicate Inv(h: Digest, db: Database) {
    TableInv(h, db.table) && TxnsInv(db) && RowsAreCommits(db)
  }

  lemma NumberIsStillNext(h: Digest, table: Table, event: LedgerEvent, s: nat, p: Option<string>)
    requires TableInv(h, table) && TxnInv(table, Linked(event, s, p))
    requires ConstraintsAllow(table, RowFor(h, event, s, p))
    ensures s == |RowsOf(table, event.traceId)| + 1
  {
    var rows := RowsOf(table, event.traceId);
    if s <= |rows| {
      assert Fits(h, rows, s - 1);
      RowsOfMembers(table, event.traceId, rows[s - 1]);
      assert false;
    }
  }

  lemma InsertKeepsTable(h: Digest, table: Table, event: LedgerEvent, s: nat, p: Option<string>)
    requires TableInv(h, table) && TxnInv(table, Linked(event, s, p))
    requires ConstraintsAllow(table, RowFor(h, event, s, p))
    ensures TableInv(h, table + [RowFor(h, event, s, p)])
  {
    var row := RowFor(h, event, s, p);
    NumberIsStillNext(h, table, event, s, p);
    QueriesOnChain(h, table, event.traceId);
    forall t ensures IsChain(h, RowsOf(table + [row], t)) {
      RowsOfAppend(table, row, t);
      assert IsChain(h, RowsOf(table, t));
      if t == event.traceId { ChainExtends(h, RowsOf(table, t), row); }
    }
  }

  lemma InsertKeepsTxn(h: Digest, table: Table, row: Row, txn: Txn)
    requires TableInv(h, table) && TableInv(h, table + [row]) && TxnInv(table, txn)
    ensures TxnInv(table + [row], txn)
  {
    RowsOfAppend(table, row, txn.event.traceId);
    QueriesOnChain(h, table, txn.event.traceId);
    QueriesOnChain(h, table + [row], txn.event.traceId);
    assert forall i :: 0 <= i < |table| ==> (table + [row])[i] == table[i];
  }

  lemma CommitKeepsCorrespondence(db: Database, t: nat, e: LedgerEvent, row: Row)
    requires TxnsInv(db) && RowsAreCommits(db) && row.event == e && !HasEvent(db.table, e.eventId)
    requires t in db.txns && !db.txns[t].Finished?
    ensures RowsAreCommits(Database(db.table + [row], db.txns[t := Finished(e, Committed)]))
  {
    var after := Database(db.table + [row], db.txns[t := Finished(e, Committed)]);
    forall i | 0 <= i < |after.table| ensures HasCommit(after, after.table[i].event) {
      if i < |db.table| {
        assert HasCommit(db, db.table[i].event);
        var u: nat :| IsCommit(db, u, db.table[i].event);
        assert IsCommit(after, u, after.table[i].event);
      } else {
        assert IsCommit(after, t, after.table[i].event);
      }
    }
    forall u: nat, d | IsCommit(after, u, d) && u != t ensures IsCommit(db, u, d) && d.eventId != e.eventId {
      assert TxnInv(db.table, db.txns[u]);
    }
    forall u: nat, v: nat, c, d | IsCommit(after, u, c) && IsCommit(after, v, d) && u != v ensures c.eventId != d.eventId {
      if u != t && v != t { assert IsCommit(db, u, c) && IsCommit(db, v, d); }
    }
  }

  lemma CommitKeepsInv(h: Digest, db: Database, t: nat)
    requires Inv(h, db) && t in db.txns && db.txns[t].Linked?
    requires Advanced(h, db.table, db.txns[t]).1.Finished? && Advanced(h, db.table, db.txns[t]).1.verdict.Committed?
    ensures Inv(h, Next(h, db, Advance(t)))
  {
    var Linked(e, s, p) := db.txns[t];
    var row := RowFor(h, e, s, p);
    InsertKeepsTable(h, db.table, e, s, p);
    CommitKeepsCorrespondence(db, t, e, row);
    var after := Database(db.table + [row], db.txns[t := Finished(e, Committed)]);
    assert after == Next(h, db, Advance(t));
    forall u | u in after.txns ensures TxnInv(after.table, after.txns[u]) {
      if u != t {
        InsertKeepsTxn(h, db.table, row, db.txns[u]);
      } else {
        assert after.table[|db.table|].event == e;
      }
    }
  }

  lemma OtherStepsKeepInv(h: Digest, db: Database, t: nat, txn: Txn)
    requires Inv(h, db) && TxnInv(db.table, txn)
    requires t in db.txns ==> !db.txns[t].Finished?
    requires txn.Finished? ==> !txn.verdict.Committed?
    ensures Inv(h, db.(txns := db.txns[t := txn]))
  {
    var after := db.(txns := db.txns[t := txn]);
    forall u: nat, v: nat, c, d | IsCommit(after, u, c) && IsCommit(after, v, d) && u != v ensures c.eventId != d.eventId {
      assert IsCommit(db, u, c) && IsCommit(db, v, d);
    }
    forall i | 0 <= i < |db.table| ensures HasCommit(after, after.table[i].event) {
      assert HasCommit(db, db.table[i].event);
      var u: nat :| IsCommit(db, u, db.table[i].event);
      assert IsCommit(after, u, after.table[i].event);
    }
  }

  lemma NextKeepsInv(h: Digest, db: Database, action: Action)
    requires Inv(h, db)
    ensures Inv(h, Next(h, db, action))
    ensures IsPrefix(db.table, Next(h, db, action).table)
  {
    match action {
      case Begin(t, e) =>
        if t !in db.txns { OtherStepsKeepInv(h, db, t, Begun(e)); }
      case Advance(t) =>
        if t in db.txns && !db.txns[t].Finished? {
          var (table, txn) := Advanced(h, db.table, db.txns[t]);
          QueriesOnChain(h, db.table, txn.event.traceId);
          assert TxnInv(db.table, db.txns[t]);
          if txn.Finished? && txn.verdict.Committed? {
            CommitKeepsInv(h, db, t);
          } else {
            OtherStepsKeepInv(h, db, t, txn);
          }
        } else if t in db.txns {
          assert db.txns[t := db.txns[t]] == db.txns;
        }
      case Fail(t) =>
        if t in db.txns && !db.txns[t].Finished? {
          OtherStepsKeepInv(h, db, t, Finished(db.txns[t].event, RolledBack));
        }
    }
  }

  /** Under every interleaving of any number of appends, each trace's rows are numbered 1..n, each
      prev_hash is the hash of the row before (null only at 1), event ids are unique, the table only
      grows, and its rows are exactly the events of the committed appends. */
  lemma {:induction false} EveryInterleavingKeepsChains(h: Digest, db: Database, actions: seq<Action>)
    requires Inv(h, db)
    ensures Inv(h, Run(h, db, actions))
    ensures IsPrefix(db.table, Run(h, db, actions).table)
  {
    if actions != [] {
      var n := |actions| - 1;
      EveryInterleavingKeepsChains(h, db, actions[..n]);
      NextKeepsInv(h, Run(h, db, actions[..n]), actions[n]);
    }
  }

  lemma EmptyDatabaseIsChained(h: Digest)
    ensures Inv(h, Database([], map[]))
  {
  }

  /** Past its duplicate check and not committed. */
  ghost predicate PastCheck(db: Database, t: nat, e: LedgerEvent) {
    t in db.txns && db.txns[t].event == e
    && match db.txns[t]
       case Begun(_) => false
       case Finished(_, v) => v.RolledBack?
       case _ => true
  }

  /** When two appends of the same event overlap, the later one is never reported as a duplicate:
      once the event is in the table, an append that is past its check can only fail. */
  lemma {:induction false} OvertakenAppendFails(h: Digest, db: Database, actions: seq<Action>, t: nat, e: LedgerEvent)
    requires HasEvent(db.table, e.eventId) && PastCheck(db, t, e)
    ensures HasEvent(Run(h, db, actions).table, e.eventId) && PastCheck(Run(h, db, actions), t, e)
  {
    if actions != [] {
      var n := |actions| - 1;
      OvertakenAppendFails(h, db, actions[..n], t, e);
      var before, after := Run(h, db, actions[..n]), Run(h, db, actions);
      var i :| 0 <= i < |before.table| && before.table[i].event.eventId == e.eventId;
      assert after.table[i] == before.table[i];
    }
  }

  // ---------------------------------------------------------------- binding by the hash chain

  function RowCanonical(row: Row): Canonical {
    CanonicalOf(row.event, row.sequenceNo, row.prevHash)
  }

  ghost predicate SameCanonicals(a: Table, b: Table) {
    |a| == |b| && forall i :: 0 <= i < |a| ==> RowCanonical(a[i]) == RowCanonical(b[i])
  }

  ghost predicate IsCollision(h: Digest, c: Canonical, d: Canonical) {
    c != d && h(c) == h(d)
  }

  /** What the hash covers: seven fields of a row, and no other. */
  lemma CanonicalCovers(a: Row, b: Row)
    ensures RowCanonical(a) == RowCanonical(b)
       <==> && a.event.eventId == b.event.eventId && a.event.traceId == b.event.traceId
            && a.event.decisionId == b.event.decisionId && a.event.stepType == b.event.stepType
            && a.event.stepId == b.event.stepId && a.sequenceNo == b.sequenceNo && a.prevHash == b.prevHash
  {
  }

  /** Two chains that end in the same hash have the same length and agree in every hashed field of
      every row, or else two rows of theirs collide under the hash. */
  lemma {:induction false} LastHashBindsChain(h: Digest, a: Table, b: Table) returns (i: nat, j: nat)
    requires IsChain(h, a) && IsChain(h, b) && a != [] && b != []
    requires a[|a| - 1].eventHash == b[|b| - 1].eventHash
    ensures SameCanonicals(a, b)
            || (i < |a| && j < |b| && IsCollision(h, RowCanonical(a[i]), RowCanonical(b[j])))
    decreases |a|
  {
    i, j := |a| - 1, |b| - 1;
    assert Fits(h, a, i) && Fits(h, b, j);
    if RowCanonical(a[i]) == RowCanonical(b[j]) && i > 0 {
      ChainPrefix(h, a, i);
      ChainPrefix(h, b, j);
      var last := i;
      i, j := LastHashBindsChain(h, a[..i], b[..j]);
      if SameCanonicals(a[..last], b[..last]) {
        assert forall k :: 0 <= k < last ==> RowCanonical(a[..last][k]) == RowCanonical(b[..last][k]);
      }
    }
  }

  /** And nothing else is bound: rows with the same hashed fields form a chain whatever their
      payloads, flow ids, flow versions and times are. */
  lemma OtherFieldsAreNotBound(h: Digest, a: Table, b: Table)
    requires IsChain(h, a) && SameCanonicals(a, b)
    requires forall i :: 0 <= i < |a| ==> b[i].eventHash == a[i].eventHash
    ensures IsChain(h, b)
  {
    forall i | 0 <= i < |b| ensures Fits(h, b, i) {
      assert Fits(h, a, i) && RowCanonical(a[i]) == RowCanonical(b[i]);
    }
  }

  /** So the payload of any row of any chain can be replaced, and all hashes still fit. */
  lemma PayloadCanBeReplaced(h: Digest, a: Table, k: nat, payload: Record) returns (b: Table)
    requires IsChain(h, a) && k < |a|
    ensures IsChain(h, b) && |b| == |a| && b[|b| - 1].eventHash == a[|a| - 1].eventHash
    ensures b[k].event == a[k].event.(payload := payload)
  {
    b := a[k := a[k].(event := a[k].event.(payload := payload))];
    OtherFieldsAreNotBound(h, a, b);
  }

  // ---------------------------------------------------------------- sequential use

  function EventsOf(table: Table): (log: Log)
    ensures |log| == |table|
    ensures forall i :: 0 <= i < |log| ==> log[i] == table[i].event
  {
    seq(|table|, i requires 0 <= i < |table| => table[i].event)
  }

  lemma {:induction false} TraceOfTable(table: Table, traceId: string)
    ensures OfTrace(EventsOf(table), traceId) == EventsOf(RowsOf(table, traceId))
  {
    if table != [] {
      var n := |table| - 1;
      TraceOfTable(table[..n], traceId);
      assert EventsOf(table)[..n] == EventsOf(table[..n]);
    }
  }

  class PostgresLedgerClient {
    const digest: Digest
    var table: Table

    constructor (h: Digest)
      ensures Valid() && table == [] && digest == h
    {
      digest, table := h, [];
    }

    ghost predicate Valid()
      reads this
    {
      TableInv(digest, table)
    }

    /** With no other append running, the statements of an append do what the in-memory ledger does. */
    method Append(event: LedgerEvent) returns (status: AppendStatus)
      requires Valid()
      modifies this
      ensures Valid()
      ensures EventsOf(table) == Appended(EventsOf(old(table)), event)
      ensures status == StatusOf(EventsOf(old(table)), event)
    {
      assert HasEvent(table, event.eventId) <==> Has(EventsOf(table), event.eventId) by {
        assert forall i :: 0 <= i < |table| ==> EventsOf(table)[i].eventId == table[i].event.eventId;
      }
      if HasEvent(table, event.eventId) { return AppendDuplicate; }
      var sequenceNo := NextSequence(table, event.traceId);
      var prevHash := LastHash(table, event.traceId);
      QueriesOnChain(digest, table, event.traceId);
      var row := RowFor(digest, event, sequenceNo, prevHash);
      SequentialInsertIsAllowed(digest, table, row);
      InsertKeepsTable(digest, table, event, sequenceNo, prevHash);
      table := table + [row];
      assert EventsOf(table) == EventsOf(old(table)) + [event];
      return AppendAccepted;
    }

    method GetByEventId(id: string) returns (r: Option<LedgerEvent>)
      ensures r.Some? ==> r.value in EventsOf(table) && r.value.eventId == id
      ensures r.None? ==> !Has(EventsOf(table), id)
    {
      assert forall i :: 0 <= i < |table| ==> EventsOf(table)[i] == table[i].event;
      if !HasEvent(table, id) { return None; }
      var i :| 0 <= i < |table| && table[i].event.eventId == id;
      return Some(table[i].event);
    }

    method GetEventsByTraceId(traceId: string) returns (r: Log)
      requires Valid()
      ensures r == OfTrace(EventsOf(table), traceId)
    {
      QueriesOnChain(digest, table, traceId);
      TraceOfTable(table, traceId);
      return EventsOf(BySequence(RowsOf(table, traceId)));
    }
  }

  lemma SequentialInsertIsAllowed(h: Digest, table: Table, row: Row)
    requires TableInv(h, table) && !HasEvent(table, row.event.eventId)
    requires row.sequenceNo == |RowsOf(table, row.event.traceId)| + 1
    ensures ConstraintsAllow(table, row)
  {
    var rows := RowsOf(table, row.event.traceId);
    forall i | 0 <= i < |table| && table[i].event.traceId == row.event.traceId
      ensures table[i].sequenceNo != row.sequenceNo {
      RowsOfMembers(table, row.event.traceId, table[i]);
      var k :| 0 <= k < |rows| && rows[k] == table[i];
      assert Fits(h, rows, k);
    }
  }
}
