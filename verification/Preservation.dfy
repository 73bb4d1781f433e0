/** Every step of the protocol keeps the invariant, so every reachable world satisfies it. */
module Preservation {
  import opened Ledger
  import opened Protocol
  import opened Shapes
  import opened Invariants

  predicate TablesOk(db: Database) {
    RowsOk(db) && LocksOk(db) && KeysOk(db) && ChangesOk(db) && UndosOk(db) && PilotsOk(db)
  }

  ghost predicate Inv(w: World) {
    TablesOk(w.db) && EvidenceOk(w) && FreshOk(w) && AheadOk(w)
  }

  // ---------------------------------------------------------------- the environment

  lemma QueueRows(w: World, e: Event, w': World)
    requires TablesOk(w.db) && EnvironmentStep(w, e, w') && (e.QueueV2? || e.QueueUndo? || e.QueueLegacy?)
    ensures RowsOk(w'.db) && LocksOk(w'.db) && KeysOk(w'.db) && ChangesOk(w'.db) && UndosOk(w'.db)
  {
    QueueShape(w, e, w');
    var op := w'.db.ledger[|w'.db.ledger| - 1];
    RowsAppend(w.db, w'.db, op);
    ChangesAppend(w.db, w'.db, op);
  }

  lemma QueuePilots(w: World, e: Event, w': World)
    requires RowsOk(w.db) && PilotsOk(w.db)
    requires EnvironmentStep(w, e, w') && (e.QueueV2? || e.QueueUndo? || e.QueueLegacy?)
    ensures PilotsOk(w'.db)
  {
    QueueShape(w, e, w');
    var op := w'.db.ledger[|w'.db.ledger| - 1];
    if e.QueueV2? {
      PilotsReserve(w.db, w'.db, op, e.guard);
    } else {
      PilotsAppend(w.db, w'.db, op);
    }
  }

  lemma QueueTables(w: World, e: Event, w': World)
    requires TablesOk(w.db) && EnvironmentStep(w, e, w') && (e.QueueV2? || e.QueueUndo? || e.QueueLegacy?)
    ensures TablesOk(w'.db)
  {
    QueueRows(w, e, w');
    QueuePilots(w, e, w');
  }

  lemma EditTables(w: World, e: Event, w': World)
    requires TablesOk(w.db) && EnvironmentStep(w, e, w') && !(e.QueueV2? || e.QueueUndo? || e.QueueLegacy?)
    ensures TablesOk(w'.db)
  {
    EditShape(w, e, w');
    SameTables(w.db, w'.db);
    if e.StopPilot? {
      PilotsStop(w.db, w'.db, e.pilot);
    } else {
      SamePilots(w.db, w'.db);
    }
  }

  lemma SameTables(db: Database, db': Database)
    requires RowsOk(db) && LocksOk(db) && KeysOk(db) && ChangesOk(db) && UndosOk(db)
    requires Keeps(db, db') && db'.changes == db.changes
    ensures RowsOk(db') && LocksOk(db') && KeysOk(db') && ChangesOk(db') && UndosOk(db')
  {
    forall c | 0 <= c < |db.changes|
      ensures ChangeOk(db', db.changes[c])
    {
      assert ChangeOk(db, db.changes[c]);
    }
    forall i | 0 <= i < |db'.ledger| && db'.ledger[i].kind.Undo?
      ensures UndoOk(db', i)
    {
      assert UndoOk(db, i);
    }
  }

  lemma SamePilots(db: Database, db': Database)
    requires PilotsOk(db) && db'.ledger == db.ledger && db'.pilots == db.pilots
    ensures PilotsOk(db')
  {
    forall p <- db'.pilots
      ensures PilotOk(db', p)
    {
      assert PilotOk(db, p);
    }
  }

  /** Evidence, readings and write-ahead are about rows the environment does not touch. */
  ghost predicate RowsUntouched(w: World, w': World) {
    && Grows(w.db, w'.db) && w'.log.trails == w.log.trails && w'.db.changes == w.db.changes && LibraryKept(w, w')
    && |w.db.ledger| <= |w'.db.ledger|
    && (forall i :: 0 <= i < |w.db.ledger| ==> w'.db.ledger[i] == w.db.ledger[i])
    && (forall i :: |w.db.ledger| <= i < |w'.db.ledger| ==> Fresh(w'.db.ledger[i]))
  }

  lemma EnvironmentEvidence(w: World, w': World)
    requires EvidenceOk(w) && RowsUntouched(w, w')
    ensures EvidenceOk(w')
  {
    forall i | 0 <= i < |w'.db.ledger|
      ensures RowEvidence(w'.db, w'.db.ledger[i], TrailOf(w'.log, i))
    {
      if i < |w.db.ledger| {
        EvidenceGrows(w.db, w'.db, w.db.ledger[i], TrailOf(w.log, i));
      }
    }
  }

  lemma EnvironmentFresh(w: World, w': World)
    requires FreshOk(w) && RowsUntouched(w, w')
    ensures FreshOk(w')
  {
    forall i | 0 <= i < |w'.db.ledger|
      ensures RowFresh(w', i)
    {
      if i < |w.db.ledger| && Active(w.db.ledger[i].state) {
        assert RowFresh(w, i);
        forall r | Made(w'.log, i, r)
          ensures Shows(w', w'.db.ledger[i].book, r)
        {
          assert Made(w.log, i, r);
          StillShows(w, w', w.db.ledger[i].book, r);
        }
      }
    }
  }

  lemma EnvironmentAhead(w: World, w': World)
    requires AheadOk(w) && RowsUntouched(w, w')
    ensures AheadOk(w')
  {
    forall i | 0 <= i < |w'.db.ledger|
      ensures RowAhead(w', i)
    {
      if i < |w.db.ledger| {
        assert RowAhead(w, i);
        var op, start := w.db.ledger[i], TrailOf(w.log, i).start;
        if start.Some? && Shows(w, op.book, start.value) {
          StillShows(w, w', op.book, start.value);
        }
      }
    }
  }

  lemma EnvironmentTrails(w: World, w': World)
    requires EvidenceOk(w) && FreshOk(w) && AheadOk(w) && RowsUntouched(w, w')
    ensures EvidenceOk(w') && FreshOk(w') && AheadOk(w')
  {
    EnvironmentEvidence(w, w');
    EnvironmentFresh(w, w');
    EnvironmentAhead(w, w');
  }

  lemma QueueKeeps(w: World, e: Event, w': World)
    requires Inv(w) && EnvironmentStep(w, e, w') && (e.QueueV2? || e.QueueUndo? || e.QueueLegacy?)
    ensures Inv(w')
  {
    QueueTables(w, e, w');
    QueueUntouched(w, e, w');
    EnvironmentTrails(w, w');
  }

  lemma QueueUntouched(w: World, e: Event, w': World)
    requires EnvironmentStep(w, e, w') && (e.QueueV2? || e.QueueUndo? || e.QueueLegacy?)
    ensures RowsUntouched(w, w')
  {
    QueueShape(w, e, w');
  }

  lemma EditKeeps(w: World, e: Event, w': World)
    requires Inv(w) && EnvironmentStep(w, e, w') && !(e.QueueV2? || e.QueueUndo? || e.QueueLegacy?)
    ensures Inv(w')
  {
    EditTables(w, e, w');
    EditShape(w, e, w');
    EnvironmentTrails(w, w');
  }

  lemma EnvironmentKeeps(w: World, e: Event, w': World)
    requires Inv(w) && EnvironmentStep(w, e, w')
    ensures Inv(w')
  {
    if e.QueueV2? || e.QueueUndo? || e.QueueLegacy? {
      QueueKeeps(w, e, w');
    } else {
      EditKeeps(w, e, w');
    }
  }

  // ---------------------------------------------------------------- moving one row

  lemma TablesMove(db: Database, db': Database, i: nat)
    requires TablesOk(db) && i < |db'.ledger| && Moves(db, db', i, db'.ledger[i]) && db'.changes == db.changes
    requires db'.ledger[i].kind.Undo? && db'.ledger[i].state == Writing ==> UndoOk(db', i)
    requires db'.ledger[i].kind.Undo? ==> db'.ledger[i].state != Succeeded
    ensures TablesOk(db')
  {
    var op := db'.ledger[i];
    RowsMove(db, db', i, op);
    LocksMoveOk(db, db', i, op);
    ChangesMove(db, db', i, op);
    UndosMove(db, db', i, op);
    PilotsMove(db, db', i, op);
  }

  lemma EvidenceMove(w: World, w': World, i: nat)
    requires EvidenceOk(w) && MovesOnly(w, w', i)
    requires RowEvidence(w'.db, w'.db.ledger[i], TrailOf(w'.log, i))
    ensures EvidenceOk(w')
  {
    forall k | 0 <= k < |w'.db.ledger| && k != i
      ensures RowEvidence(w'.db, w'.db.ledger[k], TrailOf(w'.log, k))
    {
      EvidenceGrows(w.db, w'.db, w.db.ledger[k], TrailOf(w.log, k));
      assert TrailOf(w'.log, k) == TrailOf(w.log, k);
    }
  }

  /** Marking statuses or leaving the changes alone does not add or remove a change. */
  predicate SameOwners(changes: seq<Change>, changes': seq<Change>) {
    |changes'| == |changes| && forall c :: 0 <= c < |changes| ==> changes'[c].op == changes[c].op
  }

  lemma AheadMove(w: World, w': World, i: nat)
    requires AheadOk(w) && MovesOnly(w, w', i) && SameOwners(w.db.changes, w'.db.changes)
    requires w'.db.ledger[i].state == Writing ==> RowAhead(w', i)
    ensures AheadOk(w')
  {
    forall k | 0 <= k < |w'.db.ledger|
      ensures RowAhead(w', k)
    {
      assert RowAhead(w, k);
      assert k != i ==> TrailOf(w'.log, k) == TrailOf(w.log, k);
    }
  }

  /** A move keeps the readings of its operation or forgets them. */
  lemma FreshMove(w: World, w': World, i: nat)
    requires FreshOk(w) && MovesOnly(w, w', i)
    requires var before, after := TrailOf(w.log, i).readings, TrailOf(w'.log, i).readings;
             after == [] || (after == before && Active(w.db.ledger[i].state))
             || !Active(w'.db.ledger[i].state)
    ensures FreshOk(w')
  {
    forall k | 0 <= k < |w'.db.ledger|
      ensures RowFresh(w', k)
    {
      assert RowFresh(w, k);
      assert k != i ==> TrailOf(w'.log, k) == TrailOf(w.log, k);
      forall r | Active(w'.db.ledger[k].state) && Made(w'.log, k, r)
        ensures Shows(w', w'.db.ledger[k].book, r)
      {
        assert Made(w.log, k, r);
      }
    }
  }

  lemma ClaimKeeps(w: World, e: Event, w': World)
    requires Inv(w) && PrepareStep(w, e, w') && (e.Claim? || e.Release? || e.Reject?)
    ensures Inv(w')
  {
    ClaimShape(w, e, w');
    TablesMove(w.db, w'.db, e.op);
    assert RowEvidence(w.db, w.db.ledger[e.op], TrailOf(w.log, e.op));
    ClaimEvidence(w, e, w');
    EvidenceMove(w, w', e.op);
    FreshMove(w, w', e.op);
    AheadMove(w, w', e.op);
  }

  lemma ClaimEvidence(w: World, e: Event, w': World)
    requires PrepareStep(w, e, w') && (e.Claim? || e.Release? || e.Reject?)
    ensures e.op < |w'.db.ledger| && RowEvidence(w'.db, w'.db.ledger[e.op], TrailOf(w'.log, e.op))
  {
  }

  /** Steps that only add to what is noted about one operation. */
  ghost predicate NotesOnly(w: World, w': World, i: nat) {
    && w'.db == w.db && w'.lib == w.lib && w'.log.edits == w.log.edits && SameTrails(w, w', i)
    && i < |w.db.ledger|
    && TrailOf(w'.log, i).start == TrailOf(w.log, i).start
    && TrailOf(w'.log, i).accepted == TrailOf(w.log, i).accepted && TrailOf(w'.log, i).last == TrailOf(w.log, i).last
  }

  lemma NoteShape(w: World, e: Event, w': World)
    requires PrepareStep(w, e, w') && (e.Validate? || e.Observe?)
    ensures NotesOnly(w, w', e.op) && Active(w.db.ledger[e.op].state)
    ensures e.Validate? ==> TrailOf(w'.log, e.op).readings == TrailOf(w.log, e.op).readings
    ensures e.Observe? ==>
              && TrailOf(w'.log, e.op).validated == TrailOf(w.log, e.op).validated
              && w.db.ledger[e.op].book in w.lib.meta
              && TrailOf(w'.log, e.op).readings == TrailOf(w.log, e.op).readings + [Observed(w, e.op)]
  {
  }

  lemma NoteEvidence(w: World, e: Event, w': World)
    requires EvidenceOk(w) && PrepareStep(w, e, w') && (e.Validate? || e.Observe?)
    ensures EvidenceOk(w')
  {
    NoteShape(w, e, w');
    forall i | 0 <= i < |w'.db.ledger|
      ensures RowEvidence(w'.db, w'.db.ledger[i], TrailOf(w'.log, i))
    {
      assert RowEvidence(w.db, w.db.ledger[i], TrailOf(w.log, i));
      assert i != e.op ==> TrailOf(w'.log, i) == TrailOf(w.log, i);
    }
  }

  lemma NoteFresh(w: World, e: Event, w': World)
    requires FreshOk(w) && PrepareStep(w, e, w') && (e.Validate? || e.Observe?)
    ensures FreshOk(w')
  {
    NoteShape(w, e, w');
    forall i | 0 <= i < |w'.db.ledger|
      ensures RowFresh(w', i)
    {
      assert RowFresh(w, i);
      assert i != e.op ==> TrailOf(w'.log, i) == TrailOf(w.log, i);
      forall r | Active(w'.db.ledger[i].state) && Made(w'.log, i, r)
        ensures Shows(w', w'.db.ledger[i].book, r)
      {
        assert Made(w.log, i, r) || (i == e.op && e.Observe? && r == Observed(w, i));
      }
    }
  }

  lemma NoteKeeps(w: World, e: Event, w': World)
    requires Inv(w) && PrepareStep(w, e, w') && (e.Validate? || e.Observe?)
    ensures Inv(w')
  {
    NoteShape(w, e, w');
    NoteEvidence(w, e, w');
    NoteFresh(w, e, w');
    SameAhead(w, w');
  }

  lemma BeginEvidence(w: World, e: Event, w': World)
    requires PrepareStep(w, e, w') && (e.BeginApply? || e.BeginUndo?)
    requires RowEvidence(w.db, w.db.ledger[e.op], TrailOf(w.log, e.op)) && RowFresh(w, e.op)
    ensures e.op < |w'.db.ledger| && RowEvidence(w'.db, w'.db.ledger[e.op], TrailOf(w'.log, e.op))
    ensures RowAhead(w', e.op) && TrailOf(w'.log, e.op).readings == TrailOf(w.log, e.op).readings
  {
  }

  lemma BeginKeeps(w: World, e: Event, w': World)
    requires Inv(w) && PrepareStep(w, e, w') && (e.BeginApply? || e.BeginUndo?)
    ensures Inv(w')
  {
    assert RowOk(w.db.ledger[e.op], w.db.outbox[e.op]);
    BeginShape(w, e, w');
    if e.BeginUndo? {
      UndoBegins(w.db, w'.db, e.op, w'.db.ledger[e.op]);
    }
    TablesMove(w.db, w'.db, e.op);
    assert RowEvidence(w.db, w.db.ledger[e.op], TrailOf(w.log, e.op)) && RowFresh(w, e.op);
    BeginEvidence(w, e, w');
    EvidenceMove(w, w', e.op);
    FreshMove(w, w', e.op);
    AheadMove(w, w', e.op);
  }

  // ---------------------------------------------------------------- writing

  lemma SameRows(db: Database, db': Database)
    requires RowsOk(db) && LocksOk(db) && KeysOk(db)
    requires db'.ledger == db.ledger && db'.outbox == db.outbox && db'.locks == db.locks
    ensures RowsOk(db') && LocksOk(db') && KeysOk(db')
  {
  }

  lemma MarkTables(db: Database, db': Database, c: nat, status: ChangeStatus)
    requires TablesOk(db) && Marks(db.changes, db'.changes, c, status) && status != Undone
    requires db' == db.(changes := db'.changes)
    requires db.changes[c].op < |db.ledger| && db.ledger[db.changes[c].op].state == Writing
    ensures TablesOk(db')
  {
    SameRows(db, db');
    MarkOwn(db, db', c, status);
    SamePilots(db, db');
  }

  lemma RecordTables(w: World, e: Event, w': World)
    requires TablesOk(w.db) && WriteStep(w, e, w') && e.RecordChange?
    ensures TablesOk(w'.db)
  {
    SameRows(w.db, w'.db);
    RecordOk(w.db, w'.db, e.record);
    SamePilots(w.db, w'.db);
  }

  lemma QuietEvidence(w: World, w': World)
    requires EvidenceOk(w) && w'.db.ledger == w.db.ledger && Grows(w.db, w'.db)
    requires forall k: nat :: k < |w.db.ledger| ==> TrailOf(w'.log, k) == TrailOf(w.log, k)
    ensures EvidenceOk(w')
  {
    forall k | 0 <= k < |w'.db.ledger|
      ensures RowEvidence(w'.db, w'.db.ledger[k], TrailOf(w'.log, k))
    {
      assert TrailOf(w'.log, k) == TrailOf(w.log, k);
      EvidenceGrows(w.db, w'.db, w.db.ledger[k], TrailOf(w.log, k));
    }
  }

  /** Nothing read for an operation in progress is forgotten wrongly, and the library is the same. */
  lemma QuietFresh(w: World, w': World)
    requires FreshOk(w) && w'.db.ledger == w.db.ledger && w'.lib == w.lib && w'.log.edits == w.log.edits
    requires forall k: nat :: k < |w.db.ledger| ==> TrailOf(w'.log, k).readings == TrailOf(w.log, k).readings
    ensures FreshOk(w')
  {
    forall k | 0 <= k < |w'.db.ledger|
      ensures RowFresh(w', k)
    {
      assert RowFresh(w, k) && TrailOf(w'.log, k).readings == TrailOf(w.log, k).readings;
      forall r | Active(w'.db.ledger[k].state) && Made(w'.log, k, r)
        ensures Shows(w', w'.db.ledger[k].book, r)
      {
        assert Made(w.log, k, r);
      }
    }
  }

  lemma StillUnrecorded(changes: seq<Change>, record: Change, i: nat)
    requires FindChange(changes + [record], i).None?
    ensures FindChange(changes, i).None?
  {
    assert (changes + [record])[..|changes|] == changes;
  }

  lemma RecordAhead(w: World, w': World, record: Change)
    requires AheadOk(w) && w' == w.(db := w.db.(changes := w.db.changes + [record]))
    ensures AheadOk(w')
  {
    forall k | 0 <= k < |w'.db.ledger|
      ensures RowAhead(w', k)
    {
      assert RowAhead(w, k);
      if FindChange(w'.db.changes, k).None? {
        StillUnrecorded(w.db.changes, record, k);
      }
    }
  }

  lemma RecordKeeps(w: World, e: Event, w': World)
    requires Inv(w) && WriteStep(w, e, w') && e.RecordChange?
    ensures Inv(w')
  {
    RecordTables(w, e, w');
    QuietEvidence(w, w');
    QuietFresh(w, w');
    RecordAhead(w, w', e.record);
  }

  lemma TouchShape(w: World, e: Event, w': World)
    requires WriteStep(w, e, w') && e.Touch?
    ensures w'.db == w.db && InState(w.db, e.op, Writing) && HasRestorePoint(w.db, e.op)
    ensures w'.log.edits == w.log.edits && SameTrails(w, w', e.op)
    ensures TrailOf(w'.log, e.op) == TrailOf(w.log, e.op).(readings := [], calls := TrailOf(w.log, e.op).calls + 1)
    ensures OnlyBook(w.lib, w'.lib, w.db.ledger[e.op].book)
  {
  }

  lemma TouchEvidence(w: World, e: Event, w': World)
    requires EvidenceOk(w) && WriteStep(w, e, w') && e.Touch?
    ensures EvidenceOk(w')
  {
    TouchShape(w, e, w');
    forall k | 0 <= k < |w'.db.ledger|
      ensures RowEvidence(w'.db, w'.db.ledger[k], TrailOf(w'.log, k))
    {
      assert RowEvidence(w.db, w.db.ledger[k], TrailOf(w.log, k));
      assert k != e.op ==> TrailOf(w'.log, k) == TrailOf(w.log, k);
    }
  }

  /** The lock makes the operation the only one in progress on the book it touches. */
  lemma TouchFresh(w: World, e: Event, w': World)
    requires LocksOk(w.db) && FreshOk(w) && WriteStep(w, e, w') && e.Touch?
    ensures FreshOk(w')
  {
    TouchShape(w, e, w');
    forall k | 0 <= k < |w'.db.ledger|
      ensures RowFresh(w', k)
    {
      assert RowFresh(w, k);
      if k != e.op && Active(w.db.ledger[k].state) {
        assert w.db.ledger[k].book != w.db.ledger[e.op].book && TrailOf(w'.log, k) == TrailOf(w.log, k);
        forall r | Made(w'.log, k, r)
          ensures Shows(w', w'.db.ledger[k].book, r)
        {
          assert Made(w.log, k, r);
        }
      }
    }
  }

  lemma TouchAhead(w: World, e: Event, w': World)
    requires LocksOk(w.db) && AheadOk(w) && WriteStep(w, e, w') && e.Touch?
    ensures AheadOk(w')
  {
    TouchShape(w, e, w');
    forall k | 0 <= k < |w'.db.ledger|
      ensures RowAhead(w', k)
    {
      assert RowAhead(w, k);
      if k != e.op && w.db.ledger[k].state == Writing {
        assert w.db.ledger[k].book != w.db.ledger[e.op].book && TrailOf(w'.log, k) == TrailOf(w.log, k);
      }
    }
  }

  lemma TouchKeeps(w: World, e: Event, w': World)
    requires Inv(w) && WriteStep(w, e, w') && e.Touch?
    ensures Inv(w')
  {
    TouchShape(w, e, w');
    TouchEvidence(w, e, w');
    TouchFresh(w, e, w');
    TouchAhead(w, e, w');
  }

  lemma MarkEvidence(w: World, e: Event, w': World)
    requires EvidenceOk(w) && WriteStep(w, e, w') && e.MarkChange?
    ensures EvidenceOk(w')
  {
    forall k | 0 <= k < |w'.db.ledger|
      ensures RowEvidence(w'.db, w'.db.ledger[k], TrailOf(w'.log, k))
    {
      EvidenceGrows(w.db, w'.db, w.db.ledger[k], TrailOf(w.log, k));
    }
  }

  lemma SameAhead(w: World, w': World)
    requires AheadOk(w) && w'.db.ledger == w.db.ledger && w'.lib == w.lib && w'.log.edits == w.log.edits
    requires SameOwners(w.db.changes, w'.db.changes)
    requires forall k: nat :: k < |w.db.ledger| ==> TrailOf(w'.log, k).start == TrailOf(w.log, k).start
    ensures AheadOk(w')
  {
    forall k | 0 <= k < |w'.db.ledger|
      ensures RowAhead(w', k)
    {
      assert RowAhead(w, k) && TrailOf(w'.log, k).start == TrailOf(w.log, k).start;
    }
  }

  lemma MarkShape(w: World, e: Event, w': World)
    requires WriteStep(w, e, w') && e.MarkChange?
    ensures w'.db == w.db.(changes := w'.db.changes) && w'.lib == w.lib && w'.log.edits == w.log.edits
    ensures forall k: nat :: TrailOf(w'.log, k) == TrailOf(w.log, k).(last := TrailOf(w'.log, k).last)
    ensures var own := FindChange(w.db.changes, e.op);
            own.Some? && Marks(w.db.changes, w'.db.changes, own.value, e.status)
    ensures e.status != Undone && InState(w.db, e.op, Writing) && SameOwners(w.db.changes, w'.db.changes)
  {
  }

  lemma MarkKeeps(w: World, e: Event, w': World)
    requires Inv(w) && WriteStep(w, e, w') && e.MarkChange?
    ensures Inv(w')
  {
    MarkShape(w, e, w');
    MarkTables(w.db, w'.db, FindChange(w.db.changes, e.op).value, e.status);
    MarkEvidence(w, e, w');
    QuietFresh(w, w');
    SameAhead(w, w');
  }

  lemma SettleOwners(db: Database, db': Database, i: nat)
    requires i < |db.ledger| && Settles(db, db', i)
    ensures SameOwners(db.changes, db'.changes)
  {
  }

  lemma SettleApply(db: Database, db': Database, i: nat)
    requires TablesOk(db) && i < |db'.ledger| && Moves(db, db', i, db'.ledger[i]) && Settles(db, db', i)
    requires db.ledger[i].state == Writing && db.ledger[i].kind == Apply
    ensures TablesOk(db')
  {
    if db'.changes == db.changes {
      TablesMove(db, db', i);
    } else {
      var mid := db.(changes := db'.changes);
      var status :| status != Undone && Marks(db.changes, db'.changes, FindChange(db.changes, i).value, status);
      MarkTables(db, mid, FindChange(db.changes, i).value, status);
      TablesMove(mid, db', i);
    }
  }

  lemma SettleUndo(db: Database, db': Database, i: nat)
    requires TablesOk(db) && i < |db'.ledger| && Moves(db, db', i, db'.ledger[i])
    requires db.ledger[i].state == Writing && db'.ledger[i].kind.Undo?
    requires if db'.ledger[i].state == Succeeded
             then db'.ledger[i].target == db.ledger[i].target
                  && Marks(db.changes, db'.changes, db'.ledger[i].kind.change, Undone)
             else db'.changes == db.changes
    ensures TablesOk(db')
  {
    var op := db'.ledger[i];
    if op.state == Succeeded {
      UndoSucceeds(db, db', i, op);
      UndoIsFinal(db, db', i, op);
      RowsMove(db, db', i, op);
      LocksMoveOk(db, db', i, op);
      PilotsMove(db, db', i, op);
    } else {
      TablesMove(db, db', i);
    }
  }

  lemma ApplyEvidence(w: World, e: Event, w': World)
    requires WriteStep(w, e, w') && e.SucceedApply? && RowOk(w.db.ledger[e.op], w.db.outbox[e.op])
    requires RowEvidence(w.db, w.db.ledger[e.op], TrailOf(w.log, e.op))
    ensures e.op < |w'.db.ledger| && RowEvidence(w'.db, w'.db.ledger[e.op], TrailOf(w'.log, e.op))
  {
  }

  lemma UndoEvidence(w: World, e: Event, w': World)
    requires WriteStep(w, e, w') && e.SucceedUndo?
    requires RowEvidence(w.db, w.db.ledger[e.op], TrailOf(w.log, e.op))
    ensures e.op < |w'.db.ledger| && RowEvidence(w'.db, w'.db.ledger[e.op], TrailOf(w'.log, e.op))
  {
  }

  lemma SucceedKeeps(w: World, e: Event, w': World)
    requires Inv(w) && WriteStep(w, e, w') && (e.SucceedApply? || e.SucceedUndo?)
    ensures Inv(w')
  {
    var i := e.op;
    SucceedShape(w, e, w');
    if w.db.ledger[i].kind == Apply {
      SettleApply(w.db, w'.db, i);
    } else {
      SettleUndo(w.db, w'.db, i);
    }
    SettleOwners(w.db, w'.db, i);
    assert RowOk(w.db.ledger[i], w.db.outbox[i]) && RowEvidence(w.db, w.db.ledger[i], TrailOf(w.log, i));
    if e.SucceedApply? {
      ApplyEvidence(w, e, w');
    } else {
      UndoEvidence(w, e, w');
    }
    EvidenceMove(w, w', i);
    FreshMove(w, w', i);
    AheadMove(w, w', i);
  }

  lemma EndEvidence(w: World, e: Event, w': World)
    requires WriteStep(w, e, w') && (e.Restore? || e.Abort?)
    requires RowEvidence(w.db, w.db.ledger[e.op], TrailOf(w.log, e.op))
    ensures e.op < |w'.db.ledger| && RowEvidence(w'.db, w'.db.ledger[e.op], TrailOf(w'.log, e.op))
  {
  }

  lemma EndKeeps(w: World, e: Event, w': World)
    requires Inv(w) && WriteStep(w, e, w') && (e.Restore? || e.Abort?)
    ensures Inv(w')
  {
    var i := e.op;
    if e.Restore? {
      RestoreShape(w, e, w');
    } else {
      AbortShape(w, e, w');
    }
    if w.db.ledger[i].kind == Apply {
      SettleApply(w.db, w'.db, i);
    } else {
      SettleUndo(w.db, w'.db, i);
    }
    SettleOwners(w.db, w'.db, i);
    assert RowEvidence(w.db, w.db.ledger[i], TrailOf(w.log, i));
    EndEvidence(w, e, w');
    EvidenceMove(w, w', i);
    FreshMove(w, w', i);
    AheadMove(w, w', i);
  }

  // ---------------------------------------------------------------- all steps, all runs

  lemma PrepareKeeps(w: World, e: Event, w': World)
    requires Inv(w) && PrepareStep(w, e, w')
    ensures Inv(w')
  {
    if e.Validate? || e.Observe? {
      NoteKeeps(w, e, w');
    } else if e.BeginApply? || e.BeginUndo? {
      BeginKeeps(w, e, w');
    } else {
      ClaimKeeps(w, e, w');
    }
  }

  lemma LibraryKeeps(w: World, e: Event, w': World)
    requires Inv(w) && WriteStep(w, e, w') && (e.RecordChange? || e.Touch? || e.MarkChange?)
    ensures Inv(w')
  {
    if e.RecordChange? {
      RecordKeeps(w, e, w');
    } else if e.Touch? {
      TouchKeeps(w, e, w');
    } else {
      MarkKeeps(w, e, w');
    }
  }

  lemma WriteKeeps(w: World, e: Event, w': World)
    requires Inv(w) && WriteStep(w, e, w')
    ensures Inv(w')
  {
    if e.RecordChange? || e.Touch? || e.MarkChange? {
      LibraryKeeps(w, e, w');
    } else if e.SucceedApply? || e.SucceedUndo? {
      SucceedKeeps(w, e, w');
    } else {
      EndKeeps(w, e, w');
    }
  }

  lemma StepKeeps(w: World, e: Event, w': World)
    requires Inv(w) && Step(w, e, w')
    ensures Inv(w')
  {
    if EnvironmentStep(w, e, w') {
      EnvironmentKeeps(w, e, w');
    } else if PrepareStep(w, e, w') {
      PrepareKeeps(w, e, w');
    } else {
      WriteKeeps(w, e, w');
    }
  }

  /** A run of more than one world is a shorter run and one more step. */
  lemma {:induction false} LastStep(h: seq<World>) returns (e: Event)
    requires Run(h) && |h| > 1
    ensures Run(h[..|h| - 1]) && Step(h[|h| - 2], e, h[|h| - 1])
  {
    assert Continues(h);
    e :| Step(h[|h| - 2], e, h[|h| - 1]);
  }

  lemma InitKeeps(w: World)
    requires Init(w)
    ensures Inv(w)
  {
  }

  /** Every world of every run satisfies the invariant. */
  lemma {:induction false} RunKeeps(h: seq<World>)
    requires Run(h)
    ensures Inv(h[|h| - 1])
  {
    if |h| > 1 {
      var n := |h| - 1;
      var e := LastStep(h);
      RunKeeps(h[..n]);
      assert h[..n][n - 1] == h[n - 1];
      StepKeeps(h[n - 1], e, h[n]);
    } else {
      InitKeeps(h[0]);
    }
  }
}
