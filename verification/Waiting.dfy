/** What an operation finds: while it waits its turn, nobody but other people can change its book, so it
    writes over what the library showed when it was requested. */
module Waiting {
  import opened Metadata
  import opened Ledger
  import opened Protocol
  import opened Shapes
  import opened Invariants
  import opened Preservation
  import opened Settlement
  import opened Theorems
  import opened Histories

  // ---------------------------------------------------------------- edits only accumulate

  lemma EnvironmentAddsEdits(w: World, e: Event, w': World)
    requires EnvironmentStep(w, e, w')
    ensures w.log.edits <= w'.log.edits
  {
  }

  lemma WriterAddsNoEdit(w: World, e: Event, w': World)
    requires PrepareStep(w, e, w') || WriteStep(w, e, w')
    ensures w'.log.edits == w.log.edits
  {
  }

  lemma StepAddsEdits(w: World, e: Event, w': World)
    requires Step(w, e, w')
    ensures w.log.edits <= w'.log.edits
  {
    if EnvironmentStep(w, e, w') {
      EnvironmentAddsEdits(w, e, w');
    } else {
      WriterAddsNoEdit(w, e, w');
    }
  }

  lemma {:induction false} NextAddsEdits(h: seq<World>, k: nat)
    requires Run(h) && 0 < k < |h|
    ensures h[k - 1].log.edits <= h[k].log.edits
  {
    var e := RunStep(h, k);
    StepAddsEdits(h[k - 1], e, h[k]);
  }

  /** At any two moments of a run the later list of edits extends the earlier one. */
  lemma {:induction false} EditsAccumulate(h: seq<World>, j: nat, k: nat)
    requires Run(h) && j <= k < |h|
    ensures h[j].log.edits <= h[k].log.edits
    decreases k
  {
    if j < k {
      EditsAccumulate(h, j, k - 1);
      NextAddsEdits(h, k);
    }
  }

  // ---------------------------------------------------------------- until the operation writes

  /** Between an earlier world and a later one, nobody else has edited the book. */
  predicate UneditedBetween(w: World, v: World, book: string) {
    w.log.edits <= v.log.edits && book !in v.log.edits[|w.log.edits|..]
  }

  /** Everything queued before is settled. */
  predicate Quiet(db: Database) {
    forall k :: 0 <= k < |db.ledger| ==> Terminal(db.ledger[k].state)
  }

  /** In `v` the first operation queued after `w`, on the given book, has recorded what the library showed in
      `w`; or it can still be served and the library still shows it, and so does what was read for it. */
  ghost predicate Awaits(w: World, v: World, book: string)
    requires book in w.lib.meta
  {
    var i := |w.db.ledger|;
    if i >= |v.db.ledger| then SameBook(w.lib, v.lib, book)
    else
      var op := v.db.ledger[i];
      && (Written(op.state) ==> op.before == Some(w.lib.meta[book]))
      && (!Written(op.state) && !Terminal(op.state) ==> SameBook(w.lib, v.lib, book))
      && (Active(op.state) ==> forall r :: Made(v.log, i, r) ==> r.at >= |w.log.edits|)
  }

  /** The two worlds of one step, seen from an earlier quiet world since which nobody edited the book. */
  ghost predicate Watched(w: World, v: World, e: Event, v': World, book: string) {
    && RowsOk(v.db) && FreshOk(v) && OrderOk(v.db) && Step(v, e, v') && Quiet(w.db) && Later(w.db, v.db)
    && book in w.lib.meta && UneditedBetween(w, v, book) && UneditedBetween(w, v', book)
    && (|w.db.ledger| < |v.db.ledger| ==> v.db.ledger[|w.db.ledger|].book == book)
  }

  /** Rows that were there are as they were, and so are the book and what was read. */
  lemma SameAwaits(w: World, v: World, v': World, book: string)
    requires book in w.lib.meta && Awaits(w, v, book) && SameBook(v.lib, v'.lib, book) && v.db.ledger <= v'.db.ledger
    requires forall k :: |v.db.ledger| <= k < |v'.db.ledger| ==> Fresh(v'.db.ledger[k])
    requires TrailOf(v'.log, |w.db.ledger|).readings == TrailOf(v.log, |w.db.ledger|).readings
    ensures Awaits(w, v', book)
  {
    var i := |w.db.ledger|;
    forall r | Made(v'.log, i, r)
      ensures Made(v.log, i, r)
    {
    }
  }

  lemma EnvironmentAwaits(w: World, v: World, e: Event, v': World, book: string)
    requires book in w.lib.meta && Awaits(w, v, book) && EnvironmentStep(v, e, v')
    requires UneditedBetween(w, v, book) && UneditedBetween(w, v', book)
    ensures Awaits(w, v', book)
  {
    EnvironmentAddsEdits(v, e, v');
    EnvironmentReadsNothing(v, e, v');
    assert v'.log.edits[|w.log.edits|..] == v.log.edits[|w.log.edits|..] + v'.log.edits[|v.log.edits|..];
    if e.QueueV2? || e.QueueUndo? || e.QueueLegacy? {
      QueueShape(v, e, v');
    } else {
      EditShape(v, e, v');
    }
    SameAwaits(w, v, v', book);
  }

  lemma QuietAwaits(w: World, v: World, e: Event, v': World, book: string)
    requires book in w.lib.meta && Awaits(w, v, book) && WriteStep(v, e, v') && (e.RecordChange? || e.MarkChange?)
    ensures Awaits(w, v', book)
  {
    if e.MarkChange? {
      MarkShape(v, e, v');
    }
    SameAwaits(w, v, v', book);
  }

  /** Another operation touches its own book, which is a different one while this operation can be served. */
  lemma OtherAwaits(w: World, v: World, v': World, book: string, other: string)
    requires book in w.lib.meta && Awaits(w, v, book) && v'.db == v.db && OnlyBook(v.lib, v'.lib, other)
    requires var i := |w.db.ledger|;
             && TrailOf(v'.log, i) == TrailOf(v.log, i)
             && (other == book ==> i < |v.db.ledger| && Terminal(v.db.ledger[i].state))
    ensures Awaits(w, v', book)
  {
    var i := |w.db.ledger|;
    forall r | Made(v'.log, i, r)
      ensures Made(v.log, i, r)
    {
    }
  }

  /** A touch by any other operation is on another book: earlier ones are settled, and later ones wait. */
  lemma TouchAwaits(w: World, v: World, e: Event, v': World, book: string)
    requires Watched(w, v, e, v', book) && Awaits(w, v, book) && WriteStep(v, e, v') && e.Touch?
    ensures Awaits(w, v', book)
  {
    var i := |w.db.ledger|;
    TouchShape(v, e, v');
    OthersAreElsewhere(w.db, v.db, e.op, book);
    if e.op != i {
      assert TrailOf(v'.log, i) == TrailOf(v.log, i);
      OtherAwaits(w, v, v', book, v.db.ledger[e.op].book);
    }
  }

  lemma OthersAreElsewhere(was: Database, db: Database, k: nat, book: string)
    requires Quiet(was) && Later(was, db) && OrderOk(db) && InState(db, k, Writing)
    requires |was.ledger| < |db.ledger| ==> db.ledger[|was.ledger|].book == book
    ensures k >= |was.ledger|
    ensures k > |was.ledger| && db.ledger[k].book == book ==> Terminal(db.ledger[|was.ledger|].state)
  {
    assert EarlierSettled(db, k);
  }

  /** A row that moves keeps what it recorded, and a claim forgets what was read before. */
  lemma MoveAwaits(w: World, v: World, v': World, book: string, k: nat)
    requires book in w.lib.meta && Awaits(w, v, book) && MovesOnly(v, v', k)
    requires k == |w.db.ledger| ==>
               && (v'.db.ledger[k].state == Writing ==>
                     && v'.db.ledger[k].before == Some(w.lib.meta[book])
                     && TrailOf(v'.log, k).readings == TrailOf(v.log, k).readings)
               && (v'.db.ledger[k].state == Claimed ==> TrailOf(v'.log, k).readings == [])
    ensures Awaits(w, v', book)
  {
    var i := |w.db.ledger|;
    if i < |v.db.ledger| && k != i {
      assert TrailOf(v'.log, i) == TrailOf(v.log, i);
    }
    forall r | Made(v'.log, i, r) && i < |v'.db.ledger| && Active(v'.db.ledger[i].state)
      ensures Made(v.log, i, r)
    {
    }
  }

  /** The reading a write begins with is what the library showed in `w`. */
  lemma BeginsAsRequested(w: World, v: World, e: Event, v': World, book: string)
    requires book in w.lib.meta && Awaits(w, v, book) && PrepareStep(v, e, v') && (e.BeginApply? || e.BeginUndo?)
    requires UneditedBetween(w, v, book) && e.op == |w.db.ledger| && v.db.ledger[e.op].book == book
    requires RowFresh(v, e.op)
    ensures InState(v'.db, e.op, Writing) && v'.db.ledger[e.op].before == Some(w.lib.meta[book])
    ensures TrailOf(v'.log, e.op).readings == TrailOf(v.log, e.op).readings
  {
    assert Made(v.log, e.op, e.reading);
    assert Shows(v, book, e.reading);
    assert !EditedSince(v.log, book, e.reading) by {
      var x, y := |w.log.edits|, e.reading.at;
      assert v.log.edits[y..] == v.log.edits[x..][y - x..];
    }
  }

  lemma BeginAwaits(w: World, v: World, e: Event, v': World, book: string)
    requires Watched(w, v, e, v', book) && Awaits(w, v, book) && PrepareStep(v, e, v')
    requires e.BeginApply? || e.BeginUndo?
    ensures Awaits(w, v', book)
  {
    assert RowOk(v.db.ledger[e.op], v.db.outbox[e.op]) && RowFresh(v, e.op);
    BeginShape(v, e, v');
    if e.op == |w.db.ledger| {
      BeginsAsRequested(w, v, e, v', book);
    }
    MoveAwaits(w, v, v', book, e.op);
  }

  lemma NoteAwaits(w: World, v: World, e: Event, v': World, book: string)
    requires Watched(w, v, e, v', book) && Awaits(w, v, book) && PrepareStep(v, e, v') && (e.Validate? || e.Observe?)
    ensures Awaits(w, v', book)
  {
    NoteShape(v, e, v');
    var i := |w.db.ledger|;
    if i < |v.db.ledger| && Active(v.db.ledger[i].state) {
      assert e.op != i ==> TrailOf(v'.log, i) == TrailOf(v.log, i);
      forall r | Made(v'.log, i, r)
        ensures r.at >= |w.log.edits|
      {
        assert Made(v.log, i, r) || r == Observed(v, i);
      }
    }
  }

  lemma PrepareAwaits(w: World, v: World, e: Event, v': World, book: string)
    requires Watched(w, v, e, v', book) && Awaits(w, v, book) && PrepareStep(v, e, v')
    ensures Awaits(w, v', book)
  {
    if e.Validate? || e.Observe? {
      NoteAwaits(w, v, e, v', book);
    } else if e.BeginApply? || e.BeginUndo? {
      BeginAwaits(w, v, e, v', book);
    } else {
      ClaimShape(v, e, v');
      MoveAwaits(w, v, v', book, e.op);
    }
  }

  lemma WriteAwaits(w: World, v: World, e: Event, v': World, book: string)
    requires Watched(w, v, e, v', book) && Awaits(w, v, book) && WriteStep(v, e, v')
    ensures Awaits(w, v', book)
  {
    if e.Touch? {
      TouchAwaits(w, v, e, v', book);
    } else if e.RecordChange? || e.MarkChange? {
      QuietAwaits(w, v, e, v', book);
    } else {
      if e.Restore? {
        RestoreShape(v, e, v');
      } else if e.Abort? {
        AbortShape(v, e, v');
      } else {
        SucceedShape(v, e, v');
      }
      MoveAwaits(w, v, v', book, e.op);
    }
  }

  lemma StepAwaits(w: World, v: World, e: Event, v': World, book: string)
    requires Watched(w, v, e, v', book) && Awaits(w, v, book)
    ensures Awaits(w, v', book)
  {
    if EnvironmentStep(v, e, v') {
      EnvironmentAwaits(w, v, e, v', book);
    } else if PrepareStep(v, e, v') {
      PrepareAwaits(w, v, e, v', book);
    } else {
      WriteAwaits(w, v, e, v', book);
    }
  }

  /** Nobody edited the book between two moments of a run, and it is the book of the operation. */
  ghost predicate Stretch(h: seq<World>, j: nat, k: nat, book: string) {
    && j <= k < |h| && Run(h) && Quiet(h[j].db) && book in h[j].lib.meta && UneditedBetween(h[j], h[k], book)
    && (|h[j].db.ledger| < |h[k].db.ledger| ==> h[k].db.ledger[|h[j].db.ledger|].book == book)
  }

  lemma {:induction false} ShorterStretch(h: seq<World>, j: nat, k: nat, book: string)
    requires j < k && Stretch(h, j, k, book)
    ensures Stretch(h, j, k - 1, book)
  {
    EditsAccumulate(h, j, k - 1);
    EditsAccumulate(h, k - 1, k);
    var x, y, z := h[j].log.edits, h[k - 1].log.edits, h[k].log.edits;
    assert z[|x|..] == y[|x|..] + z[|y|..];
    NextLater(h, k);
    var i := |h[j].db.ledger|;
    if i < |h[k - 1].db.ledger| {
      assert RowLater(h[k - 1].db.ledger[i], h[k].db.ledger[i]);
    }
  }

  lemma {:induction false} MomentTables(h: seq<World>, k: nat)
    requires Run(h) && k < |h|
    ensures RowsOk(h[k].db) && FreshOk(h[k]) && OrderOk(h[k].db)
  {
    MomentIsReachable(h, k);
    ReachableInv(h[k]);
    ReachableSettled(h[k]);
  }

  lemma {:induction false} WatchedStep(h: seq<World>, j: nat, k: nat, book: string) returns (e: Event)
    requires j < k && Stretch(h, j, k, book) && Stretch(h, j, k - 1, book)
    ensures Watched(h[j], h[k - 1], e, h[k], book)
  {
    MomentTables(h, k - 1);
    RunLater(h, j, k - 1);
    e := RunStep(h, k);
  }

  lemma {:induction false} RunAwaits(h: seq<World>, j: nat, k: nat, book: string)
    requires Stretch(h, j, k, book)
    ensures Awaits(h[j], h[k], book)
    decreases k
  {
    if j < k {
      ShorterStretch(h, j, k, book);
      RunAwaits(h, j, k - 1, book);
      var e := WatchedStep(h, j, k, book);
      StepAwaits(h[j], h[k - 1], e, h[k], book);
    }
  }

  /** The first operation requested when everything else is settled writes over exactly what the library
      showed at that moment, however long it waits and whatever other books go through, unless somebody
      else edits the book meanwhile. */
  lemma AsRequested(w: World, w': World)
    requires InOrder(w, w') && Quiet(w.db) && |w.db.ledger| < |w'.db.ledger|
    requires var op := w'.db.ledger[|w.db.ledger|];
             Written(op.state) && op.book in w.lib.meta && UneditedBetween(w, w', op.book)
    ensures var op := w'.db.ledger[|w.db.ledger|];
            op.before == Some(w.lib.meta[op.book])
  {
    var h: seq<World>, j: nat, k: nat :| Moments(h, j, k, w, w');
    RunAwaits(h, j, k, w'.db.ledger[|w.db.ledger|].book);
  }
}
