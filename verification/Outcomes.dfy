/** The status of a change tells how the operations about it ended, in every run. */
module Outcomes {
  import opened Metadata
  import opened Ledger
  import opened Protocol
  import opened Shapes
  import opened Invariants
  import opened Preservation
  import opened Theorems
  import opened Histories

  // ---------------------------------------------------------------- the invariant

  /** The apply that recorded a change ended accordingly. */
  predicate ApplyTells(db: Database, c: nat)
    requires c < |db.changes| && db.changes[c].op < |db.ledger|
  {
    var state, status := db.ledger[db.changes[c].op].state, db.changes[c].status;
    && (state == Succeeded ==> status == Applied || status == Undone)
    && (state == Restored ==> status == RolledBack)
    && (state == RestoreFailed ==> status == RollbackFailed)
  }

  predicate UndidIt(db: Database, c: nat, j: nat) {
    j < |db.ledger| && db.ledger[j].kind == Undo(c) && db.ledger[j].state == Succeeded
  }

  /** A change is marked undone by an undo of it that succeeded. */
  predicate UndoTells(db: Database, c: nat)
    requires c < |db.changes|
  {
    db.changes[c].status == Undone ==> exists j :: 0 <= j < |db.ledger| && UndidIt(db, c, j)
  }

  predicate OutcomeOk(db: Database, c: nat)
    requires c < |db.changes|
  {
    db.changes[c].op < |db.ledger| && ApplyTells(db, c) && UndoTells(db, c)
  }

  predicate OutcomesOk(db: Database) {
    forall c :: 0 <= c < |db.changes| ==> OutcomeOk(db, c)
  }

  // ---------------------------------------------------------------- every step

  /** A change keeps its status, and its apply has not just ended. */
  lemma OutcomeKept(db: Database, db': Database, c: nat)
    requires Later(db, db') && c < |db.changes| && OutcomeOk(db, c) && db'.changes[c].status == db.changes[c].status
    requires var i := db.changes[c].op;
             || db'.ledger[i].state == db.ledger[i].state || !Terminal(db'.ledger[i].state)
             || db'.ledger[i].state == Unknown
    ensures OutcomeOk(db', c)
  {
    assert ChangeLater(db.changes[c], db'.changes[c]);
    if db.changes[c].status == Undone {
      var j :| 0 <= j < |db.ledger| && UndidIt(db, c, j);
      assert RowLater(db.ledger[j], db'.ledger[j]) && UndidIt(db', c, j);
    }
  }

  /** A step that ends no operation and marks no change of an ended one. */
  lemma NothingEnds(db: Database, db': Database)
    requires OutcomesOk(db) && Later(db, db') && |db'.changes| == |db.changes|
    requires forall c :: 0 <= c < |db.changes| ==>
               var i := db.changes[c].op;
               && i < |db.ledger|
               && (db'.ledger[i].state == db.ledger[i].state || !Terminal(db'.ledger[i].state))
               && db'.changes[c].status == db.changes[c].status
    ensures OutcomesOk(db')
  {
    forall c | 0 <= c < |db.changes|
      ensures OutcomeOk(db', c)
    {
      assert OutcomeOk(db, c);
      OutcomeKept(db, db', c);
    }
  }

  lemma EnvironmentOutcomes(w: World, e: Event, w': World)
    requires Inv(w) && OutcomesOk(w.db) && EnvironmentStep(w, e, w')
    ensures OutcomesOk(w'.db)
  {
    EnvironmentLater(w, e, w');
    if e.QueueV2? || e.QueueUndo? || e.QueueLegacy? {
      QueueShape(w, e, w');
    } else {
      EditShape(w, e, w');
    }
    forall c | 0 <= c < |w.db.changes|
      ensures w.db.changes[c].op < |w.db.ledger|
    {
      assert OutcomeOk(w.db, c);
    }
    NothingEnds(w.db, w'.db);
  }

  /** Before the write, rows move only among states that are not final or to failed. */
  lemma PrepareMoves(w: World, e: Event, w': World)
    requires RowsOk(w.db) && PrepareStep(w, e, w')
    ensures w'.db.changes == w.db.changes && |w'.db.ledger| == |w.db.ledger|
    ensures forall k :: 0 <= k < |w.db.ledger| ==>
              || w'.db.ledger[k].state == w.db.ledger[k].state || !Terminal(w'.db.ledger[k].state)
              || !Written(w.db.ledger[k].state)
  {
    if e.Validate? || e.Observe? {
      NoteShape(w, e, w');
    } else if e.BeginApply? || e.BeginUndo? {
      assert RowOk(w.db.ledger[e.op], w.db.outbox[e.op]);
      BeginShape(w, e, w');
    } else {
      ClaimShape(w, e, w');
    }
  }

  lemma PrepareOutcomes(w: World, e: Event, w': World)
    requires Inv(w) && OutcomesOk(w.db) && Later(w.db, w'.db) && PrepareStep(w, e, w')
    ensures OutcomesOk(w'.db)
  {
    PrepareMoves(w, e, w');
    forall c | 0 <= c < |w.db.changes|
      ensures var i := w.db.changes[c].op;
              i < |w.db.ledger| && (w'.db.ledger[i].state == w.db.ledger[i].state || !Terminal(w'.db.ledger[i].state))
    {
      assert ChangeOk(w.db, w.db.changes[c]);
    }
    NothingEnds(w.db, w'.db);
  }

  /** Recording a change or touching the library ends nothing. */
  lemma RecordKeepsRows(w: World, e: Event, w': World)
    requires WriteStep(w, e, w') && (e.RecordChange? || e.Touch?)
    ensures w'.db.ledger == w.db.ledger && w.db.changes <= w'.db.changes
    ensures forall c :: |w.db.changes| <= c < |w'.db.changes| ==>
              InState(w.db, w'.db.changes[c].op, Writing) && w'.db.changes[c].status == PendingApply
  {
  }

  lemma RecordOutcomes(w: World, e: Event, w': World)
    requires OutcomesOk(w.db) && Later(w.db, w'.db) && WriteStep(w, e, w') && (e.RecordChange? || e.Touch?)
    ensures OutcomesOk(w'.db)
  {
    RecordKeepsRows(w, e, w');
    forall c | 0 <= c < |w'.db.changes|
      ensures OutcomeOk(w'.db, c)
    {
      if c < |w.db.changes| {
        assert OutcomeOk(w.db, c);
        OutcomeKept(w.db, w'.db, c);
      }
    }
  }

  /** Marking the change of an operation that is still writing. */
  lemma MarkOutcomes(w: World, e: Event, w': World)
    requires Inv(w) && OutcomesOk(w.db) && Later(w.db, w'.db) && WriteStep(w, e, w') && e.MarkChange?
    ensures OutcomesOk(w'.db)
  {
    MarkShape(w, e, w');
    MarkedOutcomes(w.db, w'.db, e.op, FindChange(w.db.changes, e.op).value, e.status);
  }

  lemma MarkedOutcomes(db: Database, db': Database, i: nat, own: nat, status: ChangeStatus)
    requires OutcomesOk(db) && Later(db, db') && db'.ledger == db.ledger && InState(db, i, Writing)
    requires Marks(db.changes, db'.changes, own, status) && status != Undone && db.changes[own].op == i
    ensures OutcomesOk(db')
  {
    forall c | 0 <= c < |db'.changes|
      ensures OutcomeOk(db', c)
    {
      assert OutcomeOk(db, c);
      if c != own {
        OutcomeKept(db, db', c);
      }
    }
  }

  /** What the commit that ends an apply does to the changes: only its own may be marked, as the end demands. */
  predicate EndsApply(db: Database, db': Database, i: nat)
    requires i < |db'.ledger|
  {
    var own, state := FindChange(db.changes, i), db'.ledger[i].state;
    && |db'.changes| == |db.changes|
    && (forall c :: 0 <= c < |db.changes| && own != Some(c) ==> db'.changes[c] == db.changes[c])
    && (own.Some? ==>
          var was, status := db.changes[own.value].status, db'.changes[own.value].status;
          && (status == Undone ==> was == Undone)
          && (state == Succeeded ==> status == Applied)
          && (state == Restored ==> status == RolledBack)
          && (state == RestoreFailed ==> status == RollbackFailed))
  }

  lemma SuccessEnds(w: World, e: Event, w': World)
    requires WriteStep(w, e, w') && e.SucceedApply?
    ensures e.op < |w'.db.ledger| && EndsApply(w.db, w'.db, e.op)
  {
  }

  lemma RestoreEnds(w: World, e: Event, w': World)
    requires WriteStep(w, e, w') && e.Restore? && w.db.ledger[e.op].kind == Apply
    ensures e.op < |w'.db.ledger| && EndsApply(w.db, w'.db, e.op)
  {
  }

  lemma AbortEnds(w: World, e: Event, w': World)
    requires WriteStep(w, e, w') && e.Abort? && w.db.ledger[e.op].kind == Apply
    ensures e.op < |w'.db.ledger| && EndsApply(w.db, w'.db, e.op)
  {
  }

  /** Every other row stays as it is. */
  lemma OneEnds(w: World, e: Event, w': World)
    requires WriteStep(w, e, w') && (e.SucceedApply? || e.SucceedUndo? || e.Restore? || e.Abort?)
    ensures e.op < |w.db.ledger| && MovesOnly(w, w', e.op)
  {
    if e.Restore? {
      RestoreShape(w, e, w');
    } else if e.Abort? {
      AbortShape(w, e, w');
    } else {
      SucceedShape(w, e, w');
    }
  }

  lemma ApplyOutcomes(w: World, e: Event, w': World)
    requires Inv(w) && OutcomesOk(w.db) && Later(w.db, w'.db) && WriteStep(w, e, w')
    requires (e.SucceedApply? || e.Restore? || e.Abort?) && w.db.ledger[e.op].kind == Apply
    ensures OutcomesOk(w'.db)
  {
    if e.SucceedApply? {
      SuccessEnds(w, e, w');
    } else if e.Restore? {
      RestoreEnds(w, e, w');
    } else {
      AbortEnds(w, e, w');
    }
    OneEnds(w, e, w');
    OwnOutcomes(w.db, w'.db, e.op);
  }

  lemma OwnOutcomes(db: Database, db': Database, i: nat)
    requires ChangesOk(db) && OutcomesOk(db) && Later(db, db')
    requires i < |db.ledger| == |db'.ledger| && EndsApply(db, db', i)
    requires db.ledger[i].state == Writing && db'.ledger == db.ledger[i := db'.ledger[i]]
    ensures OutcomesOk(db')
  {
    var own := FindChange(db.changes, i);
    forall c | 0 <= c < |db'.changes|
      ensures OutcomeOk(db', c)
    {
      assert OutcomeOk(db, c) && ChangeOk(db, db.changes[c]) && ChangeLater(db.changes[c], db'.changes[c]);
      if own != Some(c) {
        OwnIsFound(db, i, c);
        OutcomeKept(db, db', c);
      }
    }
  }

  lemma OwnIsFound(db: Database, i: nat, c: nat)
    requires ChangesOk(db) && c < |db.changes| && FindChange(db.changes, i) != Some(c)
    ensures db.changes[c].op != i
  {
  }

  /** What the commit that ends an undo does to the changes: its own is retired if it succeeded. */
  predicate EndsUndo(db: Database, db': Database, i: nat)
    requires i < |db'.ledger| && db'.ledger[i].kind.Undo?
  {
    var u := db'.ledger[i].kind.change;
    && |db'.changes| == |db.changes|
    && (forall c :: 0 <= c < |db.changes| && c != u ==> db'.changes[c] == db.changes[c])
    && u < |db.changes|
    && if db'.ledger[i].state == Succeeded then db'.changes[u].status == Undone else db'.changes == db.changes
  }

  lemma UndoEnds(w: World, e: Event, w': World)
    requires WriteStep(w, e, w') && (e.SucceedUndo? || e.Restore? || e.Abort?)
    requires w.db.ledger[e.op].kind.Undo? && w.db.ledger[e.op].kind.change < |w.db.changes|
    ensures e.op < |w'.db.ledger| && w'.db.ledger[e.op].kind.Undo? && EndsUndo(w.db, w'.db, e.op)
  {
  }

  lemma UndoOutcomes(w: World, e: Event, w': World)
    requires Inv(w) && OutcomesOk(w.db) && Later(w.db, w'.db) && WriteStep(w, e, w')
    requires (e.SucceedUndo? || e.Restore? || e.Abort?) && w.db.ledger[e.op].kind.Undo?
    ensures OutcomesOk(w'.db)
  {
    assert UndoOk(w.db, e.op);
    UndoEnds(w, e, w');
    OneEnds(w, e, w');
    RetiredOutcomes(w.db, w'.db, e.op);
  }

  lemma RetiredOutcomes(db: Database, db': Database, i: nat)
    requires ChangesOk(db) && OutcomesOk(db) && Later(db, db') && i < |db.ledger| == |db'.ledger|
    requires db'.ledger[i].kind.Undo? && EndsUndo(db, db', i) && db.changes[db'.ledger[i].kind.change].status == Applied
    requires db'.ledger == db.ledger[i := db'.ledger[i]] && db.ledger[i].kind == db'.ledger[i].kind
    ensures OutcomesOk(db')
  {
    forall c | 0 <= c < |db'.changes|
      ensures OutcomeOk(db', c)
    {
      assert OutcomeOk(db, c) && ChangeOk(db, db.changes[c]) && ChangeLater(db.changes[c], db'.changes[c]);
      if db'.changes[c].status == db.changes[c].status {
        OutcomeKept(db, db', c);
      } else {
        assert UndidIt(db', c, i);
      }
    }
  }

  lemma WriteOutcomes(w: World, e: Event, w': World)
    requires Inv(w) && OutcomesOk(w.db) && Later(w.db, w'.db) && WriteStep(w, e, w')
    ensures OutcomesOk(w'.db)
  {
    if e.RecordChange? || e.Touch? {
      RecordOutcomes(w, e, w');
    } else if e.MarkChange? {
      MarkOutcomes(w, e, w');
    } else if w.db.ledger[e.op].kind == Apply {
      ApplyOutcomes(w, e, w');
    } else {
      UndoOutcomes(w, e, w');
    }
  }

  lemma StepOutcomes(w: World, e: Event, w': World)
    requires Inv(w) && OutcomesOk(w.db) && Step(w, e, w')
    ensures OutcomesOk(w'.db)
  {
    StepLater(w, e, w');
    if EnvironmentStep(w, e, w') {
      EnvironmentOutcomes(w, e, w');
    } else if PrepareStep(w, e, w') {
      PrepareOutcomes(w, e, w');
    } else {
      WriteOutcomes(w, e, w');
    }
  }

  lemma {:induction false} NextOutcomes(h: seq<World>, k: nat)
    requires Run(h) && 0 < k < |h| && OutcomesOk(h[k - 1].db)
    ensures OutcomesOk(h[k].db)
  {
    MomentIsReachable(h, k - 1);
    ReachableInv(h[k - 1]);
    var e := RunStep(h, k);
    StepOutcomes(h[k - 1], e, h[k]);
  }

  lemma InitOutcomes(w: World)
    requires Init(w)
    ensures OutcomesOk(w.db)
  {
  }

  lemma {:induction false} RunOutcomes(h: seq<World>, k: nat)
    requires Run(h) && k < |h|
    ensures OutcomesOk(h[k].db)
  {
    if k > 0 {
      RunOutcomes(h, k - 1);
      NextOutcomes(h, k);
    } else {
      RunPrefix(h, 0);
      InitOutcomes(h[..1][0]);
    }
  }

  /** In every reachable world: the change of a succeeded apply is applied, or undone by an undo that succeeded;
      that of a restored one is rolled back, and that of one whose restore failed says so. */
  lemma ChangesTellOutcomes(w: World, c: nat)
    requires Reachable(w) && c < |w.db.changes|
    ensures var change := w.db.changes[c];
            && change.op < |w.db.ledger|
            && var state := w.db.ledger[change.op].state;
            && (state == Succeeded ==> change.status == Applied || change.status == Undone)
            && (state == Restored ==> change.status == RolledBack)
            && (state == RestoreFailed ==> change.status == RollbackFailed)
            && (change.status == Undone ==>
                  exists j ::
                    0 <= j < |w.db.ledger| && w.db.ledger[j].kind == Undo(c) && w.db.ledger[j].state == Succeeded)
  {
    var h: seq<World> :| Run(h) && h[|h| - 1] == w;
    RunOutcomes(h, |h| - 1);
    assert OutcomeOk(w.db, c);
    if w.db.changes[c].status == Undone {
      var j :| 0 <= j < |w.db.ledger| && UndidIt(w.db, c, j);
      assert w.db.ledger[j].kind == Undo(c) && w.db.ledger[j].state == Succeeded;
    }
  }
}
