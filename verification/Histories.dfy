/** What never changes back: properties that relate different moments of one run. */
module Histories {
  import opened Metadata
  import opened Ledger
  import opened Gates
  import opened Protocol
  import opened Shapes
  import opened Invariants
  import opened Preservation
  import opened Theorems

  predicate RowLater(was: Op, op: Op) {
    && SameRequest(was, op)
    && Rank(was.state) <= Rank(op.state)
    && (Terminal(was.state) ==> op == was)
    && (Written(was.state) ==> Written(op.state) && op.before == was.before)
  }

  predicate PilotLater(was: Pilot, pilot: Pilot) {
    && pilot.root == was.root && pilot.release == was.release && pilot.revision == was.revision && pilot.max == was.max
    && was.reserved <= pilot.reserved
    && (was.state == Stopped ==> pilot.state == Stopped)
  }

  predicate ChangeLater(was: Change, change: Change) {
    change == was.(status := change.status) && (was.status == Undone ==> change.status == Undone)
  }

  /** The later tables extend the earlier ones. */
  predicate Later(db: Database, db': Database) {
    && |db.ledger| <= |db'.ledger| && (forall i :: 0 <= i < |db.ledger| ==> RowLater(db.ledger[i], db'.ledger[i]))
    && |db.changes| <= |db'.changes|
    && (forall c :: 0 <= c < |db.changes| ==> ChangeLater(db.changes[c], db'.changes[c]))
    && (forall p <- db.pilots :: p in db'.pilots && PilotLater(db.pilots[p], db'.pilots[p]))
    && Grows(db, db')
  }

  lemma LaterTransitive(a: Database, b: Database, c: Database)
    requires Later(a, b) && Later(b, c)
    ensures Later(a, c)
  {
  }

  lemma RowsLater(db: Database, db': Database, i: nat)
    requires i < |db'.ledger| && Moves(db, db', i, db'.ledger[i]) && RowsOk(db)
    ensures |db.ledger| == |db'.ledger| && forall k :: 0 <= k < |db.ledger| ==> RowLater(db.ledger[k], db'.ledger[k])
  {
  }

  /** Once undone, a change is never marked again: its own operation is settled. */
  lemma ChangesLater(db: Database, db': Database, i: nat)
    requires ChangesOk(db) && i < |db.ledger| && Settles(db, db', i)
    requires db'.changes == db.changes || db.ledger[i].state == Writing
    ensures |db.changes| == |db'.changes|
    ensures forall c :: 0 <= c < |db.changes| ==> ChangeLater(db.changes[c], db'.changes[c])
  {
    if db'.changes != db.changes && db.ledger[i].kind == Apply {
      assert ChangeOk(db, db.changes[FindChange(db.changes, i).value]);
    }
  }

  lemma MovesLater(db: Database, db': Database, i: nat)
    requires RowsOk(db) && ChangesOk(db) && i < |db'.ledger| && Moves(db, db', i, db'.ledger[i]) && Settles(db, db', i)
    requires db'.changes == db.changes || db.ledger[i].state == Writing
    ensures Later(db, db')
  {
    RowsLater(db, db', i);
    ChangesLater(db, db', i);
  }

  lemma PilotsLater(w: World, e: Event, w': World)
    requires EnvironmentStep(w, e, w')
    ensures forall p <- w.db.pilots :: p in w'.db.pilots && PilotLater(w.db.pilots[p], w'.db.pilots[p])
  {
  }

  lemma ExtendsLater(db: Database, db': Database)
    requires db.ledger <= db'.ledger && db'.changes == db.changes && Grows(db, db')
    requires forall p <- db.pilots :: p in db'.pilots && PilotLater(db.pilots[p], db'.pilots[p])
    ensures Later(db, db')
  {
  }

  lemma EnvironmentLater(w: World, e: Event, w': World)
    requires EnvironmentStep(w, e, w')
    ensures Later(w.db, w'.db)
  {
    if e.QueueV2? || e.QueueUndo? || e.QueueLegacy? {
      QueueShape(w, e, w');
    } else {
      EditShape(w, e, w');
    }
    PilotsLater(w, e, w');
    ExtendsLater(w.db, w'.db);
  }

  lemma PrepareLater(w: World, e: Event, w': World)
    requires RowsOk(w.db) && ChangesOk(w.db) && PrepareStep(w, e, w')
    ensures Later(w.db, w'.db)
  {
    if e.Validate? || e.Observe? {
      ExtendsLater(w.db, w'.db);
    } else {
      if e.BeginApply? || e.BeginUndo? {
        assert RowOk(w.db.ledger[e.op], w.db.outbox[e.op]);
        BeginShape(w, e, w');
      } else {
        ClaimShape(w, e, w');
      }
      MovesLater(w.db, w'.db, e.op);
    }
  }

  lemma SettleLater(w: World, e: Event, w': World)
    requires RowsOk(w.db) && ChangesOk(w.db) && WriteStep(w, e, w')
    requires e.SucceedApply? || e.SucceedUndo? || e.Restore? || e.Abort?
    ensures Later(w.db, w'.db)
  {
    if e.Restore? {
      RestoreShape(w, e, w');
    } else if e.Abort? {
      AbortShape(w, e, w');
    } else {
      SucceedShape(w, e, w');
    }
    MovesLater(w.db, w'.db, e.op);
  }

  lemma MarksLater(db: Database, db': Database, c: nat, status: ChangeStatus)
    requires ChangesOk(db) && Marks(db.changes, db'.changes, c, status) && db' == db.(changes := db'.changes)
    requires db.changes[c].op < |db.ledger| && db.ledger[db.changes[c].op].state == Writing
    ensures Later(db, db')
  {
    assert ChangeOk(db, db.changes[c]);
  }

  lemma MarkLater(w: World, e: Event, w': World)
    requires ChangesOk(w.db) && WriteStep(w, e, w') && e.MarkChange?
    ensures Later(w.db, w'.db)
  {
    MarkShape(w, e, w');
    MarksLater(w.db, w'.db, FindChange(w.db.changes, e.op).value, e.status);
  }

  lemma RecordLater(w: World, e: Event, w': World)
    requires WriteStep(w, e, w') && (e.RecordChange? || e.Touch?)
    ensures Later(w.db, w'.db)
  {
  }

  lemma StepLater(w: World, e: Event, w': World)
    requires Inv(w) && Step(w, e, w')
    ensures Later(w.db, w'.db)
  {
    if EnvironmentStep(w, e, w') {
      EnvironmentLater(w, e, w');
    } else if PrepareStep(w, e, w') {
      PrepareLater(w, e, w');
    } else if e.MarkChange? {
      MarkLater(w, e, w');
    } else if e.RecordChange? || e.Touch? {
      RecordLater(w, e, w');
    } else {
      SettleLater(w, e, w');
    }
  }

  // ---------------------------------------------------------------- the transition table

  /** One transition of the table, or two within one transaction. */
  predicate Follows(s: OpState, t: OpState) {
    t in Allowed(s) || exists m <- Allowed(s) :: t in Allowed(m)
  }

  lemma DurableMoveFollows(s: OpState, t: OpState)
    requires DurableMove(s, t)
    ensures Follows(s, t)
  {
    if s.Writing? && t.Succeeded? {
      assert Verifying in Allowed(s) && t in Allowed(Verifying);
    } else if s.Writing? && !t.Unknown? {
      assert Restoring in Allowed(s) && t in Allowed(Restoring);
    }
  }

  /** The moves that a single transaction makes. */
  predicate Commits(s: OpState, t: OpState) {
    || (s == Requested && t == Claimed)
    || (s == Claimed && (t == Requested || t == OpState.Failed || t == Writing))
    || (s == Writing && (t == Succeeded || t == Restored || t == RestoreFailed || t == Unknown))
  }

  predicate RowFollows(was: Op, op: Op) {
    && (op.state == was.state || (Follows(was.state, op.state) && Commits(was.state, op.state)))
    && (op.completed <==> was.completed || Terminal(op.state))
  }

  lemma MoveFollows(db: Database, db': Database, i: nat, k: nat)
    requires RowsOk(db) && i < |db'.ledger| && Moves(db, db', i, db'.ledger[i]) && k < |db.ledger|
    ensures RowFollows(db.ledger[k], db'.ledger[k])
  {
    assert RowOk(db.ledger[k], db.outbox[k]);
    if k == i {
      DurableMoveFollows(db.ledger[i].state, db'.ledger[i].state);
    }
  }

  lemma KeptFollows(db: Database, db': Database, k: nat)
    requires RowsOk(db) && db.ledger <= db'.ledger && k < |db.ledger|
    ensures RowFollows(db.ledger[k], db'.ledger[k])
  {
    assert RowOk(db.ledger[k], db.outbox[k]);
  }

  lemma PrepareFollows(w: World, e: Event, w': World, i: nat)
    requires RowsOk(w.db) && PrepareStep(w, e, w') && i < |w.db.ledger|
    ensures i < |w'.db.ledger| && RowFollows(w.db.ledger[i], w'.db.ledger[i])
  {
    if e.Validate? || e.Observe? {
      KeptFollows(w.db, w'.db, i);
    } else {
      if e.BeginApply? || e.BeginUndo? {
        assert RowOk(w.db.ledger[e.op], w.db.outbox[e.op]);
        BeginShape(w, e, w');
      } else {
        ClaimShape(w, e, w');
      }
      MoveFollows(w.db, w'.db, e.op, i);
    }
  }

  lemma WriteFollows(w: World, e: Event, w': World, i: nat)
    requires RowsOk(w.db) && WriteStep(w, e, w') && i < |w.db.ledger|
    ensures i < |w'.db.ledger| && RowFollows(w.db.ledger[i], w'.db.ledger[i])
  {
    if e.RecordChange? || e.Touch? || e.MarkChange? {
      KeptFollows(w.db, w'.db, i);
    } else {
      if e.Restore? {
        RestoreShape(w, e, w');
      } else if e.Abort? {
        AbortShape(w, e, w');
      } else {
        SucceedShape(w, e, w');
      }
      MoveFollows(w.db, w'.db, e.op, i);
    }
  }

  /** In every step every operation stays where it is or moves along the transition table, and its
      completion is recorded exactly when it arrives in a terminal state. */
  lemma StatesFollowTable(w: World, e: Event, w': World, i: nat)
    requires Reachable(w) && Step(w, e, w') && i < |w.db.ledger|
    ensures i < |w'.db.ledger| && RowFollows(w.db.ledger[i], w'.db.ledger[i])
  {
    ReachableInv(w);
    if EnvironmentStep(w, e, w') {
      if e.QueueV2? || e.QueueUndo? || e.QueueLegacy? {
        QueueShape(w, e, w');
      } else {
        EditShape(w, e, w');
      }
      KeptFollows(w.db, w'.db, i);
    } else if PrepareStep(w, e, w') {
      PrepareFollows(w, e, w', i);
    } else {
      WriteFollows(w, e, w', i);
    }
  }

  // ---------------------------------------------------------------- runs

  lemma {:induction false} RunPrefix(h: seq<World>, k: nat)
    requires Run(h) && k < |h|
    ensures Run(h[..k + 1])
  {
    if k + 1 < |h| {
      var _ := LastStep(h);
      var front := h[..|h| - 1];
      RunPrefix(front, k);
      assert front[..k + 1] == h[..k + 1];
    } else {
      assert h[..k + 1] == h;
    }
  }

  lemma {:induction false} MomentIsReachable(h: seq<World>, k: nat)
    requires Run(h) && k < |h|
    ensures Reachable(h[k])
  {
    RunPrefix(h, k);
    var g := h[..k + 1];
    assert g[|g| - 1] == h[k];
  }

  lemma {:induction false} RunStep(h: seq<World>, k: nat) returns (e: Event)
    requires Run(h) && 0 < k < |h|
    ensures Step(h[k - 1], e, h[k])
  {
    RunPrefix(h, k);
    e := LastStep(h[..k + 1]);
  }

  lemma {:induction false} NextLater(h: seq<World>, k: nat)
    requires Run(h) && 0 < k < |h|
    ensures Later(h[k - 1].db, h[k].db)
  {
    MomentIsReachable(h, k - 1);
    ReachableInv(h[k - 1]);
    var e := RunStep(h, k);
    StepLater(h[k - 1], e, h[k]);
  }

  lemma LaterReflexive(db: Database)
    ensures Later(db, db)
  {
  }

  /** At any two moments of a run the later tables extend the earlier ones. */
  lemma {:induction false} RunLater(h: seq<World>, j: nat, k: nat)
    requires Run(h) && j <= k < |h|
    ensures Later(h[j].db, h[k].db)
    decreases k
  {
    if j < k {
      RunLater(h, j, k - 1);
      NextLater(h, k);
      LaterTransitive(h[j].db, h[k - 1].db, h[k].db);
    } else {
      LaterReflexive(h[j].db);
    }
  }

  // ---------------------------------------------------------------- readings

  /** What is recorded about an operation mentions a reading. */
  predicate Mentions(t: Trail, r: Reading) {
    r in t.readings || t.start == Some(r) || t.accepted == Some(r) || t.last == Some(r)
  }

  /** At moment `k` of a run, `r` is what the library shows of the book of operation `i`. */
  predicate ReadAt(h: seq<World>, k: nat, i: nat, r: Reading) {
    && k < |h| && i < |h[k].db.ledger| && h[k].db.ledger[i].book in h[k].lib.meta
    && r == Observed(h[k], i)
  }

  lemma EnvironmentReadsNothing(w: World, e: Event, w': World)
    requires EnvironmentStep(w, e, w')
    ensures w'.log.trails == w.log.trails
  {
  }

  lemma PrepareReads(w: World, e: Event, w': World, i: nat, r: Reading)
    requires PrepareStep(w, e, w') && Mentions(TrailOf(w'.log, i), r)
    ensures Mentions(TrailOf(w.log, i), r) || (e.Observe? && e.op == i && r == Observed(w, i))
  {
  }

  lemma WriteReadsNothing(w: World, e: Event, w': World, i: nat, r: Reading)
    requires WriteStep(w, e, w') && Mentions(TrailOf(w'.log, i), r)
    ensures Mentions(TrailOf(w.log, i), r)
  {
  }

  /** Readings come into the record only from the library. */
  lemma StepReads(w: World, e: Event, w': World, i: nat, r: Reading)
    requires Step(w, e, w') && Mentions(TrailOf(w'.log, i), r)
    ensures || Mentions(TrailOf(w.log, i), r)
            || (i < |w.db.ledger| && w.db.ledger[i].book in w.lib.meta && r == Observed(w, i))
  {
    if EnvironmentStep(w, e, w') {
      EnvironmentReadsNothing(w, e, w');
    } else if PrepareStep(w, e, w') {
      PrepareReads(w, e, w', i, r);
    } else {
      WriteReadsNothing(w, e, w', i, r);
    }
  }

  lemma {:induction false} FirstMentionsNothing(h: seq<World>, i: nat, r: Reading)
    requires Run(h)
    ensures !Mentions(TrailOf(h[0].log, i), r)
  {
    RunPrefix(h, 0);
    assert Init(h[..1][0]);
  }

  lemma {:induction false} NextReads(h: seq<World>, n: nat, i: nat, r: Reading)
    requires Run(h) && 0 < n < |h| && Mentions(TrailOf(h[n].log, i), r)
    ensures Mentions(TrailOf(h[n - 1].log, i), r) || ReadAt(h, n - 1, i, r)
  {
    var e := RunStep(h, n);
    StepReads(h[n - 1], e, h[n], i, r);
  }

  lemma {:induction false} MomentOf(h: seq<World>, n: nat, i: nat, r: Reading) returns (k: nat)
    requires Run(h) && n < |h| && Mentions(TrailOf(h[n].log, i), r)
    ensures ReadAt(h, k, i, r)
    decreases n
  {
    FirstMentionsNothing(h, i, r);
    NextReads(h, n, i, r);
    k := n - 1;
    if Mentions(TrailOf(h[n - 1].log, i), r) {
      k := MomentOf(h, n - 1, i, r);
    }
  }

  /** No reading is made up: every reading an operation started from, had its files accepted on, or was
      settled on, is what the library showed of its book at some moment of the run. */
  lemma {:induction false} ReadingsAreGenuine(h: seq<World>, i: nat, r: Reading)
    requires Run(h) && i < |h[|h| - 1].db.ledger| && Mentions(TrailOf(h[|h| - 1].log, i), r)
    ensures exists k: nat :: ReadAt(h, k, i, r) && h[k].db.ledger[i].book == h[|h| - 1].db.ledger[i].book
  {
    var k := MomentOf(h, |h| - 1, i, r);
    RunLater(h, k, |h| - 1);
    assert RowLater(h[k].db.ledger[i], h[|h| - 1].db.ledger[i]);
  }

  // ---------------------------------------------------------------- two moments of a run

  /** Two worlds of one run, the second not before the first. */
  ghost predicate InOrder(w: World, w': World) {
    exists h: seq<World>, j: nat, k: nat :: Moments(h, j, k, w, w')
  }

  ghost predicate Moments(h: seq<World>, j: nat, k: nat, w: World, w': World) {
    j <= k < |h| && h[j] == w && h[k] == w' && Run(h)
  }

  lemma InOrderLater(w: World, w': World)
    requires InOrder(w, w')
    ensures Later(w.db, w'.db) && Reachable(w')
  {
    var h: seq<World>, j: nat, k: nat :| Moments(h, j, k, w, w');
    RunLater(h, j, k);
    MomentIsReachable(h, k);
  }

  /** A terminal row never changes again, and a written row stays written with the same before-state. */
  lemma TerminalIsFinal(w: World, w': World, i: nat)
    requires InOrder(w, w') && i < |w.db.ledger|
    ensures i < |w'.db.ledger|
    ensures Terminal(w.db.ledger[i].state) ==> w'.db.ledger[i] == w.db.ledger[i]
    ensures Written(w.db.ledger[i].state) ==>
              Written(w'.db.ledger[i].state) && w'.db.ledger[i].before == w.db.ledger[i].before
  {
    InOrderLater(w, w');
    assert RowLater(w.db.ledger[i], w'.db.ledger[i]);
  }

  /** Whatever crashes, releases and claims happen, an operation that has been in `writing` and has
      left it is never in `writing` again. */
  lemma NeverWritesAgain(w: World, w': World, w'': World, i: nat)
    requires InOrder(w, w') && InOrder(w', w'') && i < |w.db.ledger| && w.db.ledger[i].state == Writing
    requires i < |w'.db.ledger| && w'.db.ledger[i].state != Writing
    ensures i < |w''.db.ledger| && w''.db.ledger[i].state != Writing
  {
    TerminalIsFinal(w, w', i);
    TerminalIsFinal(w', w'', i);
  }

  /** Operation `i` exists at moment `k` and enters `writing` with the next step. */
  predicate EntersWriting(h: seq<World>, i: nat, k: nat) {
    && k + 1 < |h| && i < |h[k].db.ledger| && i < |h[k + 1].db.ledger|
    && h[k].db.ledger[i].state != Writing && h[k + 1].db.ledger[i].state == Writing
  }

  /** So an operation enters `writing` at most once in a run. */
  lemma {:induction false} WritesAtMostOnce(h: seq<World>, i: nat, j: nat, k: nat)
    requires Run(h) && j < k && EntersWriting(h, i, j)
    ensures !EntersWriting(h, i, k)
  {
    if k + 1 < |h| {
      assert Moments(h, j + 1, k, h[j + 1], h[k]) && Moments(h, k, k + 1, h[k], h[k + 1]);
      TerminalIsFinal(h[j + 1], h[k], i);
      TerminalIsFinal(h[k], h[k + 1], i);
    }
  }

  /** A pilot keeps its runtime binding and its spent budget, and once stopped stays stopped. */
  lemma PilotsAreMonotone(w: World, w': World, p: string)
    requires InOrder(w, w') && p in w.db.pilots
    ensures p in w'.db.pilots
    ensures var was, pilot := w.db.pilots[p], w'.db.pilots[p];
            && pilot.root == was.root && pilot.release == was.release && pilot.revision == was.revision
            && pilot.max == was.max && was.reserved <= pilot.reserved
            && (was.state == Stopped ==> pilot.state == Stopped)
  {
    InOrderLater(w, w');
  }

  /** An incident is for ever: once an operation ends restored, restore_failed or unknown, no
      sequence of acknowledgements, stops or further writes lets a V2 request through again. */
  lemma IncidentBlocksForever(w: World, w': World, i: nat, evidence: string, authorization: string, g: Guard)
    requires InOrder(w, w') && i < |w.db.ledger|
    requires var s := w.db.ledger[i].state; s == Restored || s == RestoreFailed || s == Unknown
    ensures !Admissible(w'.db, evidence, authorization, g)
  {
    TerminalIsFinal(w, w', i);
    InOrderLater(w, w');
    LedgerAndOutboxAgree(w', i);
    BlockedBy(w', i, evidence, authorization, g);
  }

  /** So does any undo or legacy operation that failed: only a V2 failure can be acknowledged. */
  lemma LegacyFailureBlocksForever(w: World, w': World, i: nat, evidence: string, authorization: string, g: Guard)
    requires InOrder(w, w') && i < |w.db.ledger| && w.db.ledger[i].state == OpState.Failed && !w.db.ledger[i].v2
    ensures !Admissible(w'.db, evidence, authorization, g)
  {
    TerminalIsFinal(w, w', i);
    InOrderLater(w, w');
    LedgerAndOutboxAgree(w', i);
    BlockedBy(w', i, evidence, authorization, g);
  }

  lemma BlockedBy(w: World, i: nat, evidence: string, authorization: string, g: Guard)
    requires i < |w.db.ledger| && |w.db.outbox| == |w.db.ledger| && w.db.outbox[i] == Undelivered
    requires w.db.ledger[i].state != OpState.Failed || !w.db.ledger[i].v2
    ensures !Admissible(w.db, evidence, authorization, g)
  {
    assert !Cleared(w.db, i, g.pilot);
  }
}
