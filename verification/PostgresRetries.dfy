/** Committing one batch of events to the PostgreSQL ledger by any number of attempts: each append is a
    transaction interleaved with all others, and an attempt goes on only after its append has returned. */
module PostgresRetries {
  import opened Basics
  import opened LedgerClient
  import opened PostgresLedger
  import opened CommitProperties

  /** How many events of the batch an attempt has handled, and the append it waits for. */
  datatype Committer = Committer(position: nat, waiting: Option<nat>)

  datatype System = System(db: Database, attempts: map<nat, Committer>)

  /** `Submit` begins the append of the attempt's next event, `Collect` takes its verdict; `Other` is a
      statement or a broken connection of any append, or the beginning of other work. */
  datatype Move = Start(attempt: nat) | Submit(attempt: nat, txn: nat) | Collect(attempt: nat) | Other(action: Action)

  /** An attempt whose append raises is over. */
  function Collected(s: System, a: nat): System
    requires a in s.attempts
  {
    var Committer(position, waiting) := s.attempts[a];
    if waiting.None? || waiting.value !in s.db.txns || !s.db.txns[waiting.value].Finished? then s
    else if s.db.txns[waiting.value].verdict.RolledBack? then s.(attempts := s.attempts - {a})
    else s.(attempts := s.attempts[a := Committer(position + 1, None)])
  }

  function Moved(h: Digest, events: Log, s: System, move: Move): System {
    match move
    case Start(a) => if a in s.attempts then s else s.(attempts := s.attempts[a := Committer(0, None)])
    case Submit(a, t) =>
      if a !in s.attempts || s.attempts[a].waiting.Some? || s.attempts[a].position >= |events| || t in s.db.txns then s
      else System(Next(h, s.db, Begin(t, events[s.attempts[a].position])),
                  s.attempts[a := s.attempts[a].(waiting := Some(t))])
    case Collect(a) => if a in s.attempts then Collected(s, a) else s
    case Other(action) => s.(db := Next(h, s.db, action))
  }

  function Moves(h: Digest, events: Log, s: System, moves: seq<Move>): System {
    if moves == [] then s
    else
      var n := |moves| - 1;
      Moved(h, events, Moves(h, events, s, moves[..n]), moves[n])
  }

  /** Other work begins no append of this batch or its trace. */
  ghost predicate LeavesBatch(traceId: string, events: Log, move: Move) {
    move.Other? && move.action.Begin? ==> IsForeign(traceId, events, move.action.event)
  }

  ghost predicate AllLeaveBatch(traceId: string, events: Log, moves: seq<Move>) {
    forall i :: 0 <= i < |moves| ==> LeavesBatch(traceId, events, moves[i])
  }

  // ---------------------------------------------------------------- the invariant

  /** An append of the batch that has begun comes at most one place after the last recorded event. */
  ghost predicate IsKnown(traceId: string, events: Log, done: nat, e: LedgerEvent) {
    IsForeign(traceId, events, e) || (exists i :: 0 <= i < |events| && i <= done && events[i] == e)
  }

  ghost predicate AttemptFits(events: Log, db: Database, done: nat, c: Committer) {
    && c.position <= done
    && (c.waiting.Some? ==>
          c.position < |events| && c.waiting.value in db.txns && db.txns[c.waiting.value].event == events[c.position])
  }

  function Done(s: System, traceId: string): nat {
    |OfTrace(EventsOf(s.db.table), traceId)|
  }

  ghost predicate SystemInv(h: Digest, traceId: string, events: Log, s: System) {
    && Inv(h, s.db)
    && Recorded(traceId, events, EventsOf(s.db.table), Done(s, traceId))
    && (forall t :: t in s.db.txns ==> IsKnown(traceId, events, Done(s, traceId), s.db.txns[t].event))
    && (forall a :: a in s.attempts ==> AttemptFits(events, s.db, Done(s, traceId), s.attempts[a]))
  }

  lemma HasIsHasEvent(table: Table, id: string)
    ensures Has(EventsOf(table), id) <==> HasEvent(table, id)
  {
    var log := EventsOf(table);
    if HasEvent(table, id) {
      var i :| 0 <= i < |table| && table[i].event.eventId == id;
      assert log[i].eventId == id;
    }
    if Has(log, id) {
      var i :| 0 <= i < |log| && log[i].eventId == id;
      assert table[i].event.eventId == id;
    }
  }

  /** A row is recorded in the order of the batch: when an append of the batch gets through, its event
      is the one that is next. */
  lemma RowIsNext(traceId: string, events: Log, table: Table, done: nat, row: Row)
    requires IsCommitBatch(traceId, events) && Recorded(traceId, events, EventsOf(table), done)
    requires IsKnown(traceId, events, done, row.event) && !HasEvent(table, row.event.eventId)
    ensures exists after: nat :: done <= after && Recorded(traceId, events, EventsOf(table + [row]), after)
  {
    var log := EventsOf(table);
    HasIsHasEvent(table, row.event.eventId);
    assert EventsOf(table + [row]) == Appended(log, row.event);
    if IsForeign(traceId, events, row.event) {
      ForeignKeepsRecorded(traceId, events, log, done, row.event);
    } else {
      var i :| 0 <= i < |events| && i <= done && events[i] == row.event;
      assert !Has(log, events[i].eventId);
      NextIsRecorded(traceId, events, log, done);
      assert Recorded(traceId, events, EventsOf(table + [row]), done + 1);
    }
  }

  lemma NextOnlyFinishes(h: Digest, db: Database, action: Action, t: nat)
    requires t in db.txns
    ensures t in Next(h, db, action).txns && Next(h, db, action).txns[t].event == db.txns[t].event
  {
  }

  lemma StatementKeepsRecorded(h: Digest, traceId: string, events: Log, s: System, t: nat)
    requires IsCommitBatch(traceId, events) && SystemInv(h, traceId, events, s) && t in s.db.txns
    ensures var after := Next(h, s.db, Advance(t)).table;
            exists n: nat :: Done(s, traceId) <= n && Recorded(traceId, events, EventsOf(after), n)
  {
    var done := Done(s, traceId);
    var after := Next(h, s.db, Advance(t)).table;
    if after != s.db.table {
      var Linked(e, n, p) := s.db.txns[t];
      RowIsNext(traceId, events, s.db.table, done, RowFor(h, e, n, p));
    } else {
      assert Recorded(traceId, events, EventsOf(after), done);
    }
  }

  lemma ActionKeepsInv(h: Digest, traceId: string, events: Log, s: System, action: Action)
    requires IsCommitBatch(traceId, events) && SystemInv(h, traceId, events, s)
    requires action.Begin? ==> IsKnown(traceId, events, Done(s, traceId), action.event)
    ensures SystemInv(h, traceId, events, s.(db := Next(h, s.db, action)))
    ensures Done(s, traceId) <= Done(s.(db := Next(h, s.db, action)), traceId)
  {
    var after := s.(db := Next(h, s.db, action));
    NextKeepsInv(h, s.db, action);
    if action.Advance? && action.txn in s.db.txns {
      StatementKeepsRecorded(h, traceId, events, s, action.txn);
    } else {
      assert after.db.table == s.db.table;
    }
    forall t | t in after.db.txns ensures IsKnown(traceId, events, Done(after, traceId), after.db.txns[t].event) {
      if t in s.db.txns {
        NextOnlyFinishes(h, s.db, action, t);
        assert IsKnown(traceId, events, Done(s, traceId), s.db.txns[t].event);
      }
    }
    forall a | a in s.attempts ensures AttemptFits(events, after.db, Done(after, traceId), s.attempts[a]) {
      assert AttemptFits(events, s.db, Done(s, traceId), s.attempts[a]);
      if s.attempts[a].waiting.Some? { NextOnlyFinishes(h, s.db, action, s.attempts[a].waiting.value); }
    }
  }

  /** An append that returned has its event in the table. */
  lemma ReturnedIsRecorded(h: Digest, traceId: string, events: Log, s: System, a: nat)
    requires SystemInv(h, traceId, events, s) && a in s.attempts && s.attempts[a].waiting.Some?
    requires s.db.txns[s.attempts[a].waiting.value].Finished? && !s.db.txns[s.attempts[a].waiting.value].verdict.RolledBack?
    ensures s.attempts[a].position < Done(s, traceId)
  {
    var t, e := s.attempts[a].waiting.value, events[s.attempts[a].position];
    assert AttemptFits(events, s.db, Done(s, traceId), s.attempts[a]);
    assert TxnInv(s.db.table, s.db.txns[t]);
    assert HasEvent(s.db.table, e.eventId);
    HasIsHasEvent(s.db.table, e.eventId);
  }

  lemma SubmitKeepsInv(h: Digest, traceId: string, events: Log, s: System, a: nat, t: nat)
    requires IsCommitBatch(traceId, events) && SystemInv(h, traceId, events, s)
    requires a in s.attempts && s.attempts[a].position < |events| && t !in s.db.txns
    ensures SystemInv(h, traceId, events, System(Next(h, s.db, Begin(t, events[s.attempts[a].position])),
                                                 s.attempts[a := s.attempts[a].(waiting := Some(t))]))
  {
    var position := s.attempts[a].position;
    assert AttemptFits(events, s.db, Done(s, traceId), s.attempts[a]);
    assert IsKnown(traceId, events, Done(s, traceId), events[position]);
    ActionKeepsInv(h, traceId, events, s, Begin(t, events[position]));
  }

  lemma CollectKeepsInv(h: Digest, traceId: string, events: Log, s: System, a: nat)
    requires SystemInv(h, traceId, events, s) && a in s.attempts
    ensures SystemInv(h, traceId, events, Collected(s, a))
  {
    if Collected(s, a) != s && !s.db.txns[s.attempts[a].waiting.value].verdict.RolledBack? {
      ReturnedIsRecorded(h, traceId, events, s, a);
    }
  }

  lemma MoveKeepsInv(h: Digest, traceId: string, events: Log, s: System, move: Move)
    requires IsCommitBatch(traceId, events) && SystemInv(h, traceId, events, s) && LeavesBatch(traceId, events, move)
    ensures SystemInv(h, traceId, events, Moved(h, events, s, move))
  {
    match move {
      case Start(_) =>
      case Submit(a, t) =>
        if Moved(h, events, s, move) != s { SubmitKeepsInv(h, traceId, events, s, a, t); }
      case Collect(a) =>
        if a in s.attempts { CollectKeepsInv(h, traceId, events, s, a); }
      case Other(action) =>
        ActionKeepsInv(h, traceId, events, s, action);
    }
  }

  lemma {:induction false} MovesKeepInv(h: Digest, traceId: string, events: Log, s: System, moves: seq<Move>)
    requires IsCommitBatch(traceId, events) && SystemInv(h, traceId, events, s)
    requires AllLeaveBatch(traceId, events, moves)
    ensures SystemInv(h, traceId, events, Moves(h, events, s, moves))
  {
    if moves != [] {
      var n := |moves| - 1;
      MovesKeepInv(h, traceId, events, s, moves[..n]);
      MoveKeepsInv(h, traceId, events, Moves(h, events, s, moves[..n]), moves[n]);
    }
  }

  // ---------------------------------------------------------------- convergence

  /** The database before any attempt: nothing of the batch is in the table or under way. */
  ghost predicate BeforeBatch(h: Digest, traceId: string, events: Log, db: Database) {
    && Inv(h, db)
    && Recorded(traceId, events, EventsOf(db.table), 0)
    && forall t :: t in db.txns ==> IsForeign(traceId, events, db.txns[t].event)
  }

  /** However many attempts run at the same time, break off and are begun anew, and whatever the order of
      their statements: the rows of the trace are at every moment a prefix of the batch, in its order
      and without repeats, linked by their hashes; and they are the whole batch from the moment one
      attempt has had every append return. */
  lemma ConcurrentRetriesConverge(h: Digest, traceId: string, events: Log, db: Database, moves: seq<Move>)
    requires IsCommitBatch(traceId, events) && BeforeBatch(h, traceId, events, db)
    requires AllLeaveBatch(traceId, events, moves)
    ensures var s := Moves(h, events, System(db, map[]), moves);
            var rows := RowsOf(s.db.table, traceId);
            && IsPrefix(EventsOf(rows), events) && IsChain(h, rows)
            && (forall a :: a in s.attempts && s.attempts[a].position == |events| ==> EventsOf(rows) == events)
  {
    var start := System(db, map[]);
    MovesKeepInv(h, traceId, events, start, moves);
    var s := Moves(h, events, start, moves);
    TraceOfTable(s.db.table, traceId);
    forall a | a in s.attempts && s.attempts[a].position == |events| ensures Done(s, traceId) == |events| {
      assert AttemptFits(events, s.db, Done(s, traceId), s.attempts[a]);
    }
  }

  // ---------------------------------------------------------------- completion

  /** An append whose four statements run without others in between returns. */
  lemma UndisturbedAppendReturns(h: Digest, table: Table, e: LedgerEvent)
    requires TableInv(h, table)
    ensures var (t1, x1) := Advanced(h, table, Begun(e));
            var (t2, x2) := Advanced(h, t1, x1);
            var (t3, x3) := Advanced(h, t2, x2);
            var (_, x4) := Advanced(h, t3, x3);
            x4.Finished? && !x4.verdict.RolledBack?
  {
    QueriesOnChain(h, table, e.traceId);
    if !HasEvent(table, e.eventId) {
      var s, p := NextSequence(table, e.traceId), LastHash(table, e.traceId);
      SequentialInsertIsAllowed(h, table, RowFor(h, e, s, p));
    }
  }

  lemma MovesSnoc(h: Digest, events: Log, s: System, moves: seq<Move>, move: Move)
    ensures Moves(h, events, s, moves + [move]) == Moved(h, events, Moves(h, events, s, moves), move)
  {
    assert (moves + [move])[..|moves|] == moves;
  }

  lemma {:induction false} MovesConcat(h: Digest, events: Log, s: System, a: seq<Move>, b: seq<Move>)
    ensures Moves(h, events, s, a + b) == Moves(h, events, Moves(h, events, s, a), b)
  {
    if b == [] {
      assert a + b == a;
    } else {
      var n := |b| - 1;
      MovesConcat(h, events, s, a, b[..n]);
      assert (a + b)[..|a + b| - 1] == a + b[..n];
    }
  }

  /** The statements of append `t`, one after the other. */
  function Statements(t: nat, n: nat): (moves: seq<Move>)
    ensures forall move :: move in moves ==> move == Other(Advance(t))
  {
    if n == 0 then [] else Statements(t, n - 1) + [Other(Advance(t))]
  }

  lemma StatementAdvances(h: Digest, events: Log, s: System, t: nat, n: nat)
    requires t in Moves(h, events, s, Statements(t, n)).db.txns
    ensures var before, after := Moves(h, events, s, Statements(t, n)), Moves(h, events, s, Statements(t, n + 1));
            var (table, txn) := Advanced(h, before.db.table, before.db.txns[t]);
            after == System(Database(table, before.db.txns[t := txn]), before.attempts)
  {
    MovesSnoc(h, events, s, Statements(t, n), Other(Advance(t)));
  }

  lemma FourStatements(h: Digest, events: Log, s: System, t: nat, e: LedgerEvent)
    requires TableInv(h, s.db.table) && t in s.db.txns && s.db.txns[t] == Begun(e)
    ensures var after := Moves(h, events, s, Statements(t, 4));
            after.attempts == s.attempts && t in after.db.txns
            && after.db.txns[t].Finished? && !after.db.txns[t].verdict.RolledBack?
  {
    assert Moves(h, events, s, Statements(t, 0)) == s;
    StatementAdvances(h, events, s, t, 0);
    StatementAdvances(h, events, s, t, 1);
    StatementAdvances(h, events, s, t, 2);
    StatementAdvances(h, events, s, t, 3);
    UndisturbedAppendReturns(h, s.db.table, e);
  }

  lemma UnusedTxn(txns: map<nat, Txn>) returns (t: nat)
    ensures t !in txns
  {
    var keys := txns.Keys;
    t := 0;
    while keys != {}
      invariant forall u :: u in txns && u !in keys ==> u < t
      decreases keys
    {
      var u :| u in keys;
      keys := keys - {u};
      if t <= u { t := u + 1; }
    }
  }

  /** One event of an attempt that runs alone. */
  function Alone(a: nat, t: nat): seq<Move> {
    [Submit(a, t)] + Statements(t, 4) + [Collect(a)]
  }

  lemma AloneLeavesBatch(traceId: string, events: Log, a: nat, t: nat)
    ensures AllLeaveBatch(traceId, events, Alone(a, t))
  {
    forall move | move in Alone(a, t) ensures LeavesBatch(traceId, events, move) {}
  }

  lemma MovesAround(h: Digest, events: Log, s: System, first: Move, middle: seq<Move>, last: Move)
    ensures Moves(h, events, s, [first] + middle + [last])
         == Moved(h, events, Moves(h, events, Moved(h, events, s, first), middle), last)
  {
    MovesSnoc(h, events, s, [], first);
    assert [] + [first] == [first];
    MovesConcat(h, events, s, [first], middle);
    MovesSnoc(h, events, s, [first] + middle, last);
  }

  lemma CollectsReturned(s: System, a: nat, t: nat, position: nat)
    requires a in s.attempts && s.attempts[a] == Committer(position, Some(t))
    requires t in s.db.txns && s.db.txns[t].Finished? && !s.db.txns[t].verdict.RolledBack?
    ensures Collected(s, a).attempts == s.attempts[a := Committer(position + 1, None)]
  {
  }

  lemma HandlesNext(h: Digest, traceId: string, events: Log, s: System, a: nat, t: nat)
    requires SystemInv(h, traceId, events, s) && t !in s.db.txns
    requires a in s.attempts && s.attempts[a].waiting.None? && s.attempts[a].position < |events|
    ensures Moves(h, events, s, Alone(a, t)).attempts == s.attempts[a := Committer(s.attempts[a].position + 1, None)]
  {
    var position := s.attempts[a].position;
    var begun := Moved(h, events, s, Submit(a, t));
    FourStatements(h, events, begun, t, events[position]);
    MovesAround(h, events, s, Submit(a, t), Statements(t, 4), Collect(a));
    var returned := Moves(h, events, begun, Statements(t, 4));
    CollectsReturned(returned, a, t, position);
    assert s.attempts[a := Committer(position, Some(t))][a := Committer(position + 1, None)]
        == s.attempts[a := Committer(position + 1, None)];
  }

  /** No state is a dead end: whatever has happened before, an attempt that is not waiting and from now on
      runs alone has every append return, so that the whole batch is recorded. */
  lemma {:induction false} UndisturbedAttemptCompletes(h: Digest, traceId: string, events: Log, s: System, a: nat)
    returns (moves: seq<Move>)
    requires IsCommitBatch(traceId, events) && SystemInv(h, traceId, events, s)
    requires a in s.attempts && s.attempts[a].waiting.None?
    ensures AllLeaveBatch(traceId, events, moves)
    ensures EventsOf(RowsOf(Moves(h, events, s, moves).db.table, traceId)) == events
    decreases |events| - s.attempts[a].position
  {
    assert AttemptFits(events, s.db, Done(s, traceId), s.attempts[a]);
    if s.attempts[a].position == |events| {
      moves := [];
      TraceOfTable(s.db.table, traceId);
    } else {
      var t := UnusedTxn(s.db.txns);
      var first := Alone(a, t);
      HandlesNext(h, traceId, events, s, a, t);
      AloneLeavesBatch(traceId, events, a, t);
      MovesKeepInv(h, traceId, events, s, first);
      var rest := UndisturbedAttemptCompletes(h, traceId, events, Moves(h, events, s, first), a);
      MovesConcat(h, events, s, first, rest);
      moves := first + rest;
    }
  }
}
