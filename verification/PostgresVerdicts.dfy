/** How each append to the PostgreSQL ledger ends, told exactly from what was committed when its
    statements ran. */
module PostgresVerdicts {
  import opened Basics
  import opened LedgerClient
  import opened PostgresLedger

  // ---------------------------------------------------------------- the insert

  /** An insert goes through exactly when the event is still new and the number read is still the next. */
  lemma InsertAllowedExactlyWhen(h: Digest, table: Table, e: LedgerEvent, s: nat, p: Option<string>)
    requires TableInv(h, table) && TxnInv(table, Linked(e, s, p))
    ensures ConstraintsAllow(table, RowFor(h, e, s, p))
       <==> !HasEvent(table, e.eventId) && s == |RowsOf(table, e.traceId)| + 1
  {
    if ConstraintsAllow(table, RowFor(h, e, s, p)) {
      NumberIsStillNext(h, table, e, s, p);
    } else if !HasEvent(table, e.eventId) && s == |RowsOf(table, e.traceId)| + 1 {
      SequentialInsertIsAllowed(h, table, RowFor(h, e, s, p));
    }
  }

  // ---------------------------------------------------------------- watching one append

  /** The committed table when the duplicate check, the number read and the insert of an append ran, and
      whether its connection broke. */
  datatype Watch = Watch(atCheck: Option<Table>, atNumber: Option<Table>, atInsert: Option<Table>, failed: bool)

  const NOTHING_SEEN: Watch := Watch(None, None, None, false)

  /** What the action shows of append `t`, in the state before it. */
  function Watched(db: Database, w: Watch, action: Action, t: nat): Watch {
    if t !in db.txns then w
    else match action
      case Advance(u) =>
        if u != t then w
        else (match db.txns[t]
              case Begun(_) => w.(atCheck := Some(db.table))
              case Checked(_) => w.(atNumber := Some(db.table))
              case Linked(_, _, _) => w.(atInsert := Some(db.table))
              case _ => w)
      case Fail(u) => if u == t && !db.txns[t].Finished? then w.(failed := true) else w
      case Begin(_, _) => w
  }

  function WatchRun(h: Digest, db: Database, actions: seq<Action>, t: nat): Watch {
    if actions == [] then NOTHING_SEEN
    else
      var n := |actions| - 1;
      Watched(Run(h, db, actions[..n]), WatchRun(h, db, actions[..n], t), actions[n], t)
  }

  ghost predicate SawCheck(table: Table, e: LedgerEvent, w: Watch) {
    w.atCheck.Some? && IsPrefix(w.atCheck.value, table) && !HasEvent(w.atCheck.value, e.eventId)
  }

  ghost predicate SawNumber(table: Table, e: LedgerEvent, w: Watch) {
    && w.atNumber.Some? && SawCheck(w.atNumber.value, e, w) && IsPrefix(w.atNumber.value, table)
  }

  ghost predicate SawInsert(table: Table, e: LedgerEvent, w: Watch) {
    && w.atInsert.Some? && SawNumber(w.atInsert.value, e, w) && IsPrefix(w.atInsert.value, table)
  }

  /** Between the check and the insert somebody committed this event. */
  ghost predicate EventOvertook(e: LedgerEvent, w: Watch) {
    w.atInsert.Some? && HasEvent(w.atInsert.value, e.eventId)
  }

  /** Between the number read and the insert somebody committed a row of the same trace. */
  ghost predicate TraceOvertook(e: LedgerEvent, w: Watch) {
    w.atInsert.Some? && w.atNumber.Some?
    && |RowsOf(w.atInsert.value, e.traceId)| > |RowsOf(w.atNumber.value, e.traceId)|
  }

  /** The verdict as the watch explains it. */
  ghost predicate Explains(table: Table, e: LedgerEvent, v: Verdict, w: Watch) {
    && (v.FoundDuplicate? <==> w.atCheck.Some? && HasEvent(w.atCheck.value, e.eventId))
    && (v.RolledBack? <==> w.failed || EventOvertook(e, w) || TraceOvertook(e, w))
    && (v.Committed? <==> w.atInsert.Some? && !EventOvertook(e, w) && !TraceOvertook(e, w))
    && (w.atInsert.Some? ==> SawInsert(table, e, w))
  }

  ghost predicate WatchInv(db: Database, t: nat, w: Watch) {
    if t !in db.txns then w == NOTHING_SEEN
    else match db.txns[t]
      case Begun(_) => w == NOTHING_SEEN
      case Checked(e) => SawCheck(db.table, e, w) && w.atNumber.None? && w.atInsert.None? && !w.failed
      case Numbered(e, s) =>
        SawNumber(db.table, e, w) && w.atInsert.None? && !w.failed && s == |RowsOf(w.atNumber.value, e.traceId)| + 1
      case Linked(e, s, _) =>
        SawNumber(db.table, e, w) && w.atInsert.None? && !w.failed && s == |RowsOf(w.atNumber.value, e.traceId)| + 1
      case Finished(e, v) => Explains(db.table, e, v, w)
  }

  // ---------------------------------------------------------------- the watch is kept

  lemma {:induction false} RowsGrow(a: Table, b: Table, traceId: string)
    requires IsPrefix(a, b)
    ensures |RowsOf(a, traceId)| <= |RowsOf(b, traceId)|
    decreases |b|
  {
    if |a| < |b| {
      var n := |b| - 1;
      assert b[..n][..|a|] == a;
      RowsGrow(a, b[..n], traceId);
    } else {
      assert a == b;
    }
  }

  /** Committing other work does not disturb what was seen. */
  lemma GrowthKeepsWatch(db: Database, after: Database, t: nat, w: Watch)
    requires WatchInv(db, t, w) && IsPrefix(db.table, after.table)
    requires (t in db.txns <==> t in after.txns) && (t in db.txns ==> after.txns[t] == db.txns[t])
    ensures WatchInv(after, t, w)
  {
    if w.atCheck.Some? && IsPrefix(w.atCheck.value, db.table) {
      PrefixTransitive(w.atCheck.value, db.table, after.table);
    }
    if w.atNumber.Some? && IsPrefix(w.atNumber.value, db.table) {
      PrefixTransitive(w.atNumber.value, db.table, after.table);
    }
    if w.atInsert.Some? && IsPrefix(w.atInsert.value, db.table) {
      PrefixTransitive(w.atInsert.value, db.table, after.table);
    }
  }

  lemma InsertKeepsWatch(h: Digest, db: Database, t: nat, w: Watch)
    requires Inv(h, db) && WatchInv(db, t, w) && t in db.txns && db.txns[t].Linked?
    ensures WatchInv(Next(h, db, Advance(t)), t, Watched(db, w, Advance(t), t))
  {
    var Linked(e, s, p) := db.txns[t];
    assert TxnInv(db.table, db.txns[t]);
    InsertAllowedExactlyWhen(h, db.table, e, s, p);
    RowsGrow(w.atNumber.value, db.table, e.traceId);
    PrefixTransitive(w.atCheck.value, w.atNumber.value, db.table);
    var after := Next(h, db, Advance(t)).table;
    assert IsPrefix(db.table, after);
  }

  /** The statements before the insert, and a broken connection. */
  lemma EarlierStepKeepsWatch(h: Digest, db: Database, action: Action, t: nat, w: Watch)
    requires Inv(h, db) && WatchInv(db, t, w) && t in db.txns && action.txn == t && !action.Begin?
    requires !db.txns[t].Finished? && (action.Advance? ==> !db.txns[t].Linked?)
    ensures WatchInv(Next(h, db, action), t, Watched(db, w, action, t))
  {
    QueriesOnChain(h, db.table, db.txns[t].event.traceId);
  }

  lemma NextKeepsWatch(h: Digest, db: Database, action: Action, t: nat, w: Watch)
    requires Inv(h, db) && WatchInv(db, t, w)
    ensures WatchInv(Next(h, db, action), t, Watched(db, w, action, t))
  {
    if action.txn != t || (t in db.txns && (action.Begin? || db.txns[t].Finished?)) {
      NextKeepsInv(h, db, action);
      GrowthKeepsWatch(db, Next(h, db, action), t, w);
    } else if t in db.txns {
      if action.Advance? && db.txns[t].Linked? {
        InsertKeepsWatch(h, db, t, w);
      } else {
        EarlierStepKeepsWatch(h, db, action, t, w);
      }
    }
  }

  lemma {:induction false} WatchIsKept(h: Digest, db: Database, actions: seq<Action>, t: nat)
    requires Inv(h, db) && t !in db.txns
    ensures WatchInv(Run(h, db, actions), t, WatchRun(h, db, actions, t))
  {
    if actions != [] {
      var n := |actions| - 1;
      WatchIsKept(h, db, actions[..n], t);
      EveryInterleavingKeepsChains(h, db, actions[..n]);
      NextKeepsWatch(h, Run(h, db, actions[..n]), actions[n], t, WatchRun(h, db, actions[..n], t));
    }
  }

  // ---------------------------------------------------------------- the verdicts

  /** How an append ends, under every interleaving: as a duplicate exactly when its event was committed
      before its check; rolled back exactly when its connection broke, or its event was committed after
      its check, or another row of its trace was committed after its number was read; committed exactly
      when it came to its insert and nothing overtook it. */
  lemma VerdictsAreExact(h: Digest, db: Database, actions: seq<Action>, t: nat, e: LedgerEvent, v: Verdict)
    requires Inv(h, db) && t !in db.txns
    ensures var after, w := Run(h, db, actions), WatchRun(h, db, actions, t);
            t in after.txns && after.txns[t] == Finished(e, v) ==>
              && (v == FoundDuplicate <==> w.atCheck.Some? && HasEvent(w.atCheck.value, e.eventId))
              && (v == RolledBack <==> w.failed || EventOvertook(e, w) || TraceOvertook(e, w))
              && (v == Committed <==> w.atInsert.Some? && !EventOvertook(e, w) && !TraceOvertook(e, w))
  {
    WatchIsKept(h, db, actions, t);
  }

  lemma OvertakingGrows(e: LedgerEvent, table: Table, w: Watch)
    requires SawInsert(table, e, w) && (EventOvertook(e, w) || TraceOvertook(e, w))
    ensures |w.atCheck.value| < |w.atInsert.value|
  {
    PrefixTransitive(w.atCheck.value, w.atNumber.value, w.atInsert.value);
    EqualLengthPrefix(w.atCheck.value, w.atInsert.value);
    EqualLengthPrefix(w.atNumber.value, w.atInsert.value);
  }

  /** Progress without locks: an append that rolls back over a working connection was overtaken, so
      between its check and its insert some other append committed. */
  lemma SomebodyProgresses(h: Digest, db: Database, actions: seq<Action>, t: nat, e: LedgerEvent)
    requires Inv(h, db) && t !in db.txns
    ensures var after, w := Run(h, db, actions), WatchRun(h, db, actions, t);
            t in after.txns && after.txns[t] == Finished(e, RolledBack) && !w.failed ==>
              && w.atCheck.Some? && w.atInsert.Some?
              && IsPrefix(w.atCheck.value, w.atInsert.value) && |w.atCheck.value| < |w.atInsert.value|
  {
    WatchIsKept(h, db, actions, t);
    var after, w := Run(h, db, actions), WatchRun(h, db, actions, t);
    if t in after.txns && after.txns[t] == Finished(e, RolledBack) && !w.failed {
      OvertakingGrows(e, after.table, w);
      PrefixTransitive(w.atCheck.value, w.atNumber.value, w.atInsert.value);
    }
  }

  // ---------------------------------------------------------------- a duplicate that raises

  lemma RunSnoc(h: Digest, db: Database, actions: seq<Action>, action: Action)
    ensures Run(h, db, actions + [action]) == Next(h, Run(h, db, actions), action)
  {
    assert (actions + [action])[..|actions|] == actions;
  }

  ghost predicate IsAfter(h: Digest, db: Database, actions: seq<Action>, table: Table, first: Txn, second: Txn) {
    Run(h, db, actions) == Database(table, map[0 := first, 1 := second])
  }

  lemma FirstAdvances(h: Digest, db: Database, actions: seq<Action>, table: Table, first: Txn, second: Txn)
    requires IsAfter(h, db, actions, table, first, second)
    ensures var (after, txn) := Advanced(h, table, first);
            IsAfter(h, db, actions + [Advance(0)], after, txn, second)
  {
    RunSnoc(h, db, actions, Advance(0));
  }

  lemma SecondAdvances(h: Digest, db: Database, actions: seq<Action>, table: Table, first: Txn, second: Txn)
    requires IsAfter(h, db, actions, table, first, second)
    ensures var (after, txn) := Advanced(h, table, second);
            IsAfter(h, db, actions + [Advance(1)], after, first, txn)
  {
    RunSnoc(h, db, actions, Advance(1));
  }

  /** Two appends of one event, both checked before the first inserts. */
  function CheckedTogether(e: LedgerEvent): seq<Action> {
    [Begin(0, e)] + [Begin(1, e)] + [Advance(0)] + [Advance(1)] + [Advance(0)] + [Advance(0)] + [Advance(0)]
    + [Advance(1)] + [Advance(1)] + [Advance(1)]
  }

  /** On the empty table the second of them rolls back: the event is recorded, and still the append is
      not reported as a duplicate. */
  lemma OverlappingDuplicateRaises(h: Digest, e: LedgerEvent)
    ensures var after := Run(h, Database([], map[]), CheckedTogether(e));
            && 0 in after.txns && after.txns[0] == Finished(e, Committed)
            && 1 in after.txns && after.txns[1] == Finished(e, RolledBack)
            && HasEvent(after.table, e.eventId)
  {
    var db := Database([], map[]);
    var row := RowFor(h, e, 1, None);
    BothChecked(h, e);
    var a := [Begin(0, e)] + [Begin(1, e)] + [Advance(0)] + [Advance(1)];
    EmptyAndSingleRow(h, e, row);
    FirstAdvances(h, db, a, [], Checked(e), Checked(e));
    FirstAdvances(h, db, a + [Advance(0)], [], Numbered(e, 1), Checked(e));
    FirstAdvances(h, db, a + [Advance(0)] + [Advance(0)], [], Linked(e, 1, None), Checked(e));
    var b := a + [Advance(0)] + [Advance(0)] + [Advance(0)];
    SecondAdvances(h, db, b, [row], Finished(e, Committed), Checked(e));
    SecondAdvances(h, db, b + [Advance(1)], [row], Finished(e, Committed), Numbered(e, 2));
    SecondAdvances(h, db, b + [Advance(1)] + [Advance(1)], [row], Finished(e, Committed), Linked(e, 2, Some(row.eventHash)));
    assert CheckedTogether(e) == b + [Advance(1)] + [Advance(1)] + [Advance(1)];
  }

  lemma BothChecked(h: Digest, e: LedgerEvent)
    ensures IsAfter(h, Database([], map[]), [Begin(0, e)] + [Begin(1, e)] + [Advance(0)] + [Advance(1)],
                    [], Checked(e), Checked(e))
  {
    var db := Database([], map[]);
    RunSnoc(h, db, [], Begin(0, e));
    assert [] + [Begin(0, e)] == [Begin(0, e)];
    RunSnoc(h, db, [Begin(0, e)], Begin(1, e));
    assert IsAfter(h, db, [Begin(0, e)] + [Begin(1, e)], [], Begun(e), Begun(e));
    FirstAdvances(h, db, [Begin(0, e)] + [Begin(1, e)], [], Begun(e), Begun(e));
    SecondAdvances(h, db, [Begin(0, e)] + [Begin(1, e)] + [Advance(0)], [], Checked(e), Begun(e));
  }

  lemma EmptyAndSingleRow(h: Digest, e: LedgerEvent, row: Row)
    requires row == RowFor(h, e, 1, None)
    ensures NextSequence([], e.traceId) == 1 && LastHash([], e.traceId).None? && ConstraintsAllow([], row)
    ensures NextSequence([row], e.traceId) == 2 && LastHash([row], e.traceId) == Some(row.eventHash)
    ensures HasEvent([row], e.eventId)
  {
    assert [row][..0] == [];
    assert RowsOf([row], e.traceId) == [row];
    assert [row][0].event.eventId == e.eventId;
  }
}
