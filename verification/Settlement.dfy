/** What a settled operation leaves behind: the order in which operations of one book are served, the
    standing of acknowledged failures, and the library as the last operation on a book left it. */
module Settlement {
  import opened Ledger
  import opened Protocol
  import opened Shapes
  import opened Invariants
  import opened Preservation

  // ---------------------------------------------------------------- the invariant

  /** Operations of one book are served in the order they were requested. */
  predicate EarlierSettled(db: Database, b: nat)
    requires b < |db.ledger|
  {
    db.ledger[b].state != Requested ==>
      forall a :: 0 <= a < b && db.ledger[a].book == db.ledger[b].book ==> Terminal(db.ledger[a].state)
  }

  predicate OrderOk(db: Database) {
    forall b :: 0 <= b < |db.ledger| ==> EarlierSettled(db, b)
  }

  /** An acknowledged operation is a completed V2 failure of a stopped pilot. */
  predicate AckOk(db: Database, i: nat) {
    && i < |db.ledger|
    && var op := db.ledger[i];
    && op.state == OpState.Failed && op.v2 && op.completed
    && op.pilot.Some? && op.pilot.value in db.pilots && db.pilots[op.pilot.value].state == Stopped
  }

  predicate AcksOk(db: Database) {
    forall i <- db.acks :: AckOk(db, i)
  }

  /** No later operation of the same book has written. */
  predicate LastWord(db: Database, i: nat)
    requires i < |db.ledger|
  {
    forall j :: i < j < |db.ledger| && db.ledger[j].book == db.ledger[i].book ==> !Written(db.ledger[j].state)
  }

  /** The library still shows the last reading made for an operation that ended verified, and the reading
      whose files were accepted, unless somebody else has edited the book since. */
  predicate RowLive(w: World, i: nat)
    requires i < |w.db.ledger|
  {
    var op := w.db.ledger[i];
    var t := TrailOf(w.log, i);
    (op.state == Succeeded || op.state == Restored) && LastWord(w.db, i) ==>
      && t.last.Some? && Shows(w, op.book, t.last.value)
      && (op.kind == Apply && op.state == Succeeded ==> t.accepted.Some? && Shows(w, op.book, t.accepted.value))
  }

  predicate LiveOk(w: World) {
    forall i :: 0 <= i < |w.db.ledger| ==> RowLive(w, i)
  }

  predicate Settled(w: World) {
    OrderOk(w.db) && AcksOk(w.db) && LiveOk(w)
  }

  // ---------------------------------------------------------------- order

  lemma OrderAppend(db: Database, db': Database, op: Op)
    requires OrderOk(db) && Appends(db, db', op)
    ensures OrderOk(db')
  {
    forall b | 0 <= b < |db'.ledger|
      ensures EarlierSettled(db', b)
    {
      assert b < |db.ledger| ==> EarlierSettled(db, b);
    }
  }

  lemma OrderKept(db: Database, db': Database)
    requires OrderOk(db) && db'.ledger == db.ledger
    ensures OrderOk(db')
  {
    forall b | 0 <= b < |db'.ledger|
      ensures EarlierSettled(db', b)
    {
      assert EarlierSettled(db, b);
    }
  }

  /** At a claim every earlier operation of the book is settled: it is no longer pending, and the lock
      shows that none is in progress. */
  lemma ClaimIsNext(db: Database, i: nat, a: nat)
    requires RowsOk(db) && LocksOk(db) && a < i < |db.ledger| && db.ledger[a].book == db.ledger[i].book
    requires db.outbox[a] != Pending && db.ledger[i].book !in db.locks
    ensures Terminal(db.ledger[a].state)
  {
    assert RowOk(db.ledger[a], db.outbox[a]);
    assert !Active(db.ledger[a].state);
  }

  lemma OrderMoves(db: Database, db': Database, i: nat, op: Op)
    requires RowsOk(db) && LocksOk(db) && OrderOk(db) && Moves(db, db', i, op)
    requires op.state == Claimed ==> forall k :: 0 <= k < i ==> db.outbox[k] != Pending
    ensures OrderOk(db')
  {
    forall b | 0 <= b < |db'.ledger|
      ensures EarlierSettled(db', b)
    {
      assert EarlierSettled(db, b);
      if b == i && op.state == Claimed {
        forall a | 0 <= a < i && db'.ledger[a].book == op.book
          ensures Terminal(db'.ledger[a].state)
        {
          ClaimIsNext(db, i, a);
        }
      }
    }
  }

  // ---------------------------------------------------------------- acknowledgements

  lemma AcksMove(db: Database, db': Database, i: nat, op: Op)
    requires AcksOk(db) && Moves(db, db', i, op)
    ensures AcksOk(db')
  {
    forall k <- db'.acks
      ensures AckOk(db', k)
    {
      assert AckOk(db, k);
    }
  }

  lemma AcksKept(db: Database, db': Database)
    requires AcksOk(db) && db'.ledger == db.ledger && db'.acks == db.acks && db'.pilots == db.pilots
    ensures AcksOk(db')
  {
    forall k <- db'.acks
      ensures AckOk(db', k)
    {
      assert AckOk(db, k);
    }
  }

  lemma StoppedStays(w: World, e: Event, w': World, p: string)
    requires EnvironmentStep(w, e, w') && p in w.db.pilots && w.db.pilots[p].state == Stopped
    ensures p in w'.db.pilots && w'.db.pilots[p].state == Stopped
  {
  }

  lemma AcksEnvironment(w: World, e: Event, w': World)
    requires AcksOk(w.db) && EnvironmentStep(w, e, w') && w.db.ledger <= w'.db.ledger
    ensures AcksOk(w'.db)
  {
    forall k <- w'.db.acks
      ensures AckOk(w'.db, k)
    {
      if k in w.db.acks {
        assert AckOk(w.db, k);
        StoppedStays(w, e, w', w.db.ledger[k].pilot.value);
      }
    }
  }

  // ---------------------------------------------------------------- the library

  lemma LiveEnvironment(w: World, w': World)
    requires LiveOk(w) && LibraryKept(w, w') && w'.log.trails == w.log.trails && w.db.ledger <= w'.db.ledger
    requires forall k :: |w.db.ledger| <= k < |w'.db.ledger| ==> Fresh(w'.db.ledger[k])
    ensures LiveOk(w')
  {
    forall i | 0 <= i < |w'.db.ledger|
      ensures RowLive(w', i)
    {
      if i < |w.db.ledger| {
        assert RowLive(w, i) && (LastWord(w'.db, i) ==> LastWord(w.db, i));
        forall r | Shows(w, w.db.ledger[i].book, r)
          ensures Shows(w', w.db.ledger[i].book, r)
        {
          StillShows(w, w', w.db.ledger[i].book, r);
        }
      }
    }
  }

  /** A row that moves does not take the last word from another one unless it writes. */
  lemma LiveMoves(w: World, w': World, i: nat)
    requires LiveOk(w) && MovesOnly(w, w', i) && RowLive(w', i)
    ensures LiveOk(w')
  {
    forall k | 0 <= k < |w'.db.ledger| && k != i
      ensures RowLive(w', k)
    {
      assert RowLive(w, k) && TrailOf(w'.log, k) == TrailOf(w.log, k);
      if LastWord(w'.db, k) {
        LastWordMoves(w.db, w'.db, i, k);
      }
    }
  }

  lemma LastWordMoves(db: Database, db': Database, i: nat, k: nat)
    requires i < |db'.ledger| && Moves(db, db', i, db'.ledger[i]) && k < |db'.ledger| && k != i && LastWord(db', k)
    ensures LastWord(db, k)
  {
    forall j | k < j < |db.ledger| && db.ledger[j].book == db.ledger[k].book
      ensures !Written(db.ledger[j].state)
    {
      assert !Written(db'.ledger[j].state);
    }
  }

  /** Steps that leave the ledger, the library and the trails of settled rows alone. */
  lemma LiveQuiet(w: World, w': World, i: nat)
    requires LiveOk(w) && w'.db.ledger == w.db.ledger && w'.lib == w.lib && w'.log.edits == w.log.edits
    requires SameTrails(w, w', i) && i < |w.db.ledger| && !Terminal(w.db.ledger[i].state)
    ensures LiveOk(w')
  {
    forall k | 0 <= k < |w'.db.ledger|
      ensures RowLive(w', k)
    {
      assert RowLive(w, k);
      assert k != i ==> TrailOf(w'.log, k) == TrailOf(w.log, k);
      assert LastWord(w'.db, k) ==> LastWord(w.db, k);
    }
  }

  /** The operation that touches a book is the last one on it: every earlier one lost the last word
      when it began, and every later one is still waiting. */
  lemma LiveTouched(w: World, w': World, i: nat)
    requires OrderOk(w.db) && LiveOk(w) && InState(w.db, i, Writing)
    requires w'.db == w.db && w'.log.edits == w.log.edits && SameTrails(w, w', i)
    requires OnlyBook(w.lib, w'.lib, w.db.ledger[i].book)
    ensures LiveOk(w')
  {
    forall k | 0 <= k < |w'.db.ledger|
      ensures RowLive(w', k)
    {
      assert RowLive(w, k);
      assert k != i ==> TrailOf(w'.log, k) == TrailOf(w.log, k);
      if k > i {
        assert EarlierSettled(w.db, k);
      }
    }
  }

  // ---------------------------------------------------------------- every step

  lemma EnvironmentSettles(w: World, e: Event, w': World)
    requires Settled(w) && EnvironmentStep(w, e, w')
    ensures Settled(w')
  {
    if e.QueueV2? || e.QueueUndo? || e.QueueLegacy? {
      QueueShape(w, e, w');
      OrderAppend(w.db, w'.db, w'.db.ledger[|w'.db.ledger| - 1]);
    } else {
      EditShape(w, e, w');
      OrderKept(w.db, w'.db);
    }
    AcksEnvironment(w, e, w');
    LiveEnvironment(w, w');
  }

  lemma MoveSettles(w: World, w': World, i: nat)
    requires RowsOk(w.db) && LocksOk(w.db) && Settled(w) && MovesOnly(w, w', i) && RowLive(w', i)
    requires w'.db.ledger[i].state == Claimed ==> forall k :: 0 <= k < i ==> w.db.outbox[k] != Pending
    ensures Settled(w')
  {
    OrderMoves(w.db, w'.db, i, w'.db.ledger[i]);
    AcksMove(w.db, w'.db, i, w'.db.ledger[i]);
    LiveMoves(w, w', i);
  }

  lemma PrepareSettles(w: World, e: Event, w': World)
    requires RowsOk(w.db) && LocksOk(w.db) && Settled(w) && PrepareStep(w, e, w')
    ensures Settled(w')
  {
    if e.Validate? || e.Observe? {
      NoteShape(w, e, w');
      LiveQuiet(w, w', e.op);
    } else {
      if e.BeginApply? || e.BeginUndo? {
        assert RowOk(w.db.ledger[e.op], w.db.outbox[e.op]);
        BeginShape(w, e, w');
      } else {
        ClaimShape(w, e, w');
      }
      MoveSettles(w, w', e.op);
    }
  }

  lemma SuccessIsLive(w: World, e: Event, w': World)
    requires WriteStep(w, e, w') && (e.SucceedApply? || e.SucceedUndo?) && RowFresh(w, e.op)
    ensures e.op < |w'.db.ledger| && RowLive(w', e.op)
  {
  }

  lemma EndIsLive(w: World, e: Event, w': World)
    requires WriteStep(w, e, w') && (e.Restore? || e.Abort?) && RowFresh(w, e.op)
    ensures e.op < |w'.db.ledger| && RowLive(w', e.op)
  {
  }

  lemma EndSettles(w: World, e: Event, w': World)
    requires RowsOk(w.db) && LocksOk(w.db) && FreshOk(w) && Settled(w) && WriteStep(w, e, w')
    requires e.SucceedApply? || e.SucceedUndo? || e.Restore? || e.Abort?
    ensures Settled(w')
  {
    if e.SucceedApply? || e.SucceedUndo? {
      SucceedShape(w, e, w');
      SuccessIsLive(w, e, w');
    } else {
      if e.Restore? {
        RestoreShape(w, e, w');
      } else {
        AbortShape(w, e, w');
      }
      EndIsLive(w, e, w');
    }
    MoveSettles(w, w', e.op);
  }

  lemma WriteSettles(w: World, e: Event, w': World)
    requires RowsOk(w.db) && LocksOk(w.db) && FreshOk(w) && Settled(w) && WriteStep(w, e, w')
    ensures Settled(w')
  {
    if e.Touch? {
      TouchShape(w, e, w');
      LiveTouched(w, w', e.op);
    } else if e.RecordChange? || e.MarkChange? {
      OrderKept(w.db, w'.db);
      AcksKept(w.db, w'.db);
      LiveQuiet(w, w', e.op);
    } else {
      EndSettles(w, e, w');
    }
  }

  lemma StepSettles(w: World, e: Event, w': World)
    requires RowsOk(w.db) && LocksOk(w.db) && FreshOk(w) && Settled(w) && Step(w, e, w')
    ensures Settled(w')
  {
    if EnvironmentStep(w, e, w') {
      EnvironmentSettles(w, e, w');
    } else if PrepareStep(w, e, w') {
      PrepareSettles(w, e, w');
    } else {
      WriteSettles(w, e, w');
    }
  }

  lemma {:induction false} RunTables(h: seq<World>)
    requires Run(h)
    ensures RowsOk(h[|h| - 1].db) && LocksOk(h[|h| - 1].db) && FreshOk(h[|h| - 1])
  {
    RunKeeps(h);
  }

  lemma InitSettles(w: World)
    requires Init(w)
    ensures Settled(w)
  {
  }

  /** Every world of every run is settled in this sense. */
  lemma {:induction false} RunSettles(h: seq<World>)
    requires Run(h)
    ensures Settled(h[|h| - 1])
  {
    if |h| > 1 {
      var n := |h| - 1;
      var e := LastStep(h);
      RunSettles(h[..n]);
      RunTables(h[..n]);
      assert h[..n][n - 1] == h[n - 1];
      StepSettles(h[n - 1], e, h[n]);
    } else {
      InitSettles(h[0]);
    }
  }
}
