/** The coarse shape of every step: what it does to the ledger, the outbox, the locks, the
    changes and the library. Invariants are proved from these shapes, not from the steps. */
module Shapes {
  import opened Ledger
  import opened Protocol

  function DeliveryFor(s: OpState): Delivery {
    match s
    case Requested => Pending
    case Claimed => Processing
    case Writing => Processing
    case Succeeded => Published
    case _ => Undelivered
  }

  /** Rows other than the ledger's own that a step may only add to. */
  predicate Grows(db: Database, db': Database) {
    && db.acks <= db'.acks
    && (forall k <- db.packages :: k in db'.packages && db'.packages[k] == db.packages[k])
    && (forall k <- db.authorizations :: k in db'.authorizations && db'.authorizations[k] == db.authorizations[k])
    && (forall k <- db.books :: k in db'.books && db'.books[k].calibreId == db.books[k].calibreId)
  }

  predicate Keeps(db: Database, db': Database) {
    db'.ledger == db.ledger && db'.outbox == db.outbox && db'.locks == db.locks && Grows(db, db')
  }

  predicate Appends(db: Database, db': Database, op: Op) {
    && Fresh(op) && KeyFree(db, op.key)
    && (op.kind.Undo? ==> op.kind.change < |db.changes| && op.book == db.changes[op.kind.change].book)
    && db'.ledger == db.ledger + [op] && db'.outbox == db.outbox + [Pending] && db'.locks == db.locks
    && Grows(db, db')
  }

  predicate DurableMove(s: OpState, t: OpState) {
    match s
    case Requested => t.Claimed?
    case Claimed => t.Requested? || t.Failed? || t.Writing?
    case Writing => t.Succeeded? || t.Restored? || t.RestoreFailed? || t.Unknown?
    case _ => false
  }

  /** Row `was` becomes `op` in one commit. */
  predicate RowMoves(was: Op, op: Op) {
    && SameRequest(was, op) && DurableMove(was.state, op.state)
    && (op.completed <==> was.completed || Terminal(op.state))
    && (was.state.Writing? ==> op.before == was.before && op.rollback == was.rollback && op.target.Some?)
    && (op.state.Writing? ==> op.before.Some? && op.target.Some? && (op.kind.Undo? ==> op.rollback.Some?))
  }

  predicate LocksMove(locks: map<string, Lock>, locks': map<string, Lock>, i: nat, op: Op) {
    match op.state
    case Claimed => op.book !in locks && op.lease.Some? && locks' == locks[op.book := Lock(i, op.lease.value)]
    case Writing => locks' == locks
    case _ => locks' == Unlock(locks, op.book, i)
  }

  /** A commit that moves operation `i`, and with it its event and its lock. */
  predicate Moves(db: Database, db': Database, i: nat, op: Op) {
    && i < |db.ledger| && i < |db.outbox|
    && RowMoves(db.ledger[i], op)
    && db'.ledger == db.ledger[i := op] && db'.outbox == db.outbox[i := DeliveryFor(op.state)]
    && LocksMove(db.locks, db'.locks, i, op)
    && db'.pilots == db.pilots && db'.acks == db.acks
    && db'.books == db.books && db'.packages == db.packages && db'.authorizations == db.authorizations
  }

  /** Nothing about the changes is different except the status of change `c`. */
  predicate Marks(changes: seq<Change>, changes': seq<Change>, c: nat, status: ChangeStatus) {
    c < |changes| && changes' == SetStatus(changes, c, status)
  }

  /** What a settling commit may do to the changes: mark its own, mark the one it undoes, or nothing. */
  predicate Settles(db: Database, db': Database, i: nat)
    requires i < |db.ledger|
  {
    || db'.changes == db.changes
    || (db.ledger[i].kind == Apply && FindChange(db.changes, i).Some?
        && exists status :: status != Undone && Marks(db.changes, db'.changes, FindChange(db.changes, i).value, status))
    || (db.ledger[i].kind.Undo? && Marks(db.changes, db'.changes, db.ledger[i].kind.change, Undone))
  }

  ghost predicate SameTrails(w: World, w': World, i: nat) {
    forall k: nat :: k != i ==> TrailOf(w'.log, k) == TrailOf(w.log, k)
  }

  /** Nobody but others touched the library: books they did not edit meanwhile are as they were, and if
      they edited nothing so is the whole library. */
  ghost predicate LibraryKept(w: World, w': World) {
    && w.log.edits <= w'.log.edits
    && (forall k :: k !in w'.log.edits[|w.log.edits|..] ==> SameBook(w.lib, w'.lib, k))
    && (w'.log.edits == w.log.edits ==> w'.lib == w.lib)
  }

  predicate SameBook(lib: Library, lib': Library, k: string) {
    (k in lib'.meta <==> k in lib.meta) && (k in lib.meta ==> lib'.meta[k] == lib.meta[k])
  }

  lemma LibraryKeptTransitive(a: World, b: World, c: World)
    requires LibraryKept(a, b) && LibraryKept(b, c)
    ensures LibraryKept(a, c)
  {
    var x, y, z := a.log.edits, b.log.edits, c.log.edits;
    assert z[|x|..] == y[|x|..] + z[|y|..];
    forall k | k !in z[|x|..]
      ensures SameBook(a.lib, c.lib, k)
    {
      assert SameBook(a.lib, b.lib, k) && SameBook(b.lib, c.lib, k);
    }
  }

  /** As long as the writer does not touch the library, it still shows what it showed. */
  lemma StillShows(w: World, w': World, book: string, reading: Reading)
    requires LibraryKept(w, w') && Shows(w, book, reading)
    ensures Shows(w', book, reading)
  {
    var x, y := w.log.edits, w'.log.edits;
    assert y[reading.at..] == x[reading.at..] + y[|x|..];
    assert book !in y[|x|..] ==> SameBook(w.lib, w'.lib, book);
  }

  // ---------------------------------------------------------------- environment

  lemma QueueShape(w: World, e: Event, w': World)
    requires EnvironmentStep(w, e, w') && (e.QueueV2? || e.QueueUndo? || e.QueueLegacy?)
    ensures w'.db.ledger != [] && Appends(w.db, w'.db, w'.db.ledger[|w'.db.ledger| - 1])
    ensures w'.db.changes == w.db.changes && w'.log == w.log && w'.lib == w.lib
  {
  }

  lemma EditShape(w: World, e: Event, w': World)
    requires EnvironmentStep(w, e, w') && !(e.QueueV2? || e.QueueUndo? || e.QueueLegacy?)
    ensures Keeps(w.db, w'.db)
    ensures w'.db.changes == w.db.changes && w'.log.trails == w.log.trails && LibraryKept(w, w')
  {
  }

  // ---------------------------------------------------------------- the writer

  ghost predicate MovesOnly(w: World, w': World, i: nat) {
    && i < |w'.db.ledger| && Moves(w.db, w'.db, i, w'.db.ledger[i])
    && w'.lib == w.lib && w'.log.edits == w.log.edits && SameTrails(w, w', i)
  }

  lemma ClaimShape(w: World, e: Event, w': World)
    requires PrepareStep(w, e, w') && (e.Claim? || e.Release? || e.Reject?)
    ensures MovesOnly(w, w', e.op) && w'.db.changes == w.db.changes
  {
  }

  lemma BeginShape(w: World, e: Event, w': World)
    requires PrepareStep(w, e, w') && (e.BeginApply? || e.BeginUndo?) && w.db.outbox[e.op] == Processing
    ensures MovesOnly(w, w', e.op) && w'.db.changes == w.db.changes && w'.db.ledger[e.op].state == Writing
  {
  }

  lemma SucceedShape(w: World, e: Event, w': World)
    requires WriteStep(w, e, w') && (e.SucceedApply? || e.SucceedUndo?)
    ensures MovesOnly(w, w', e.op) && Settles(w.db, w'.db, e.op) && w'.db.ledger[e.op].state == Succeeded
  {
    var i := e.op;
    if w.db.ledger[i].kind == Apply && FindChange(w.db.changes, i).Some? {
      assert Marks(w.db.changes, w'.db.changes, FindChange(w.db.changes, i).value, Applied);
    }
  }

  lemma RestoreShape(w: World, e: Event, w': World)
    requires WriteStep(w, e, w') && e.Restore?
    ensures MovesOnly(w, w', e.op) && Settles(w.db, w'.db, e.op) && w'.db.ledger[e.op].state == Restored
  {
    var i := e.op;
    if w.db.ledger[i].kind == Apply && FindChange(w.db.changes, i).Some? {
      assert Marks(w.db.changes, w'.db.changes, FindChange(w.db.changes, i).value, RolledBack);
    }
  }

  lemma AbortShape(w: World, e: Event, w': World)
    requires WriteStep(w, e, w') && e.Abort?
    ensures MovesOnly(w, w', e.op) && Settles(w.db, w'.db, e.op) && w'.log == w.log
    ensures w'.db.ledger[e.op].state == e.outcome
  {
    var i := e.op;
    if e.mark.Some? && FindChange(w.db.changes, i).Some? {
      assert Marks(w.db.changes, w'.db.changes, FindChange(w.db.changes, i).value, e.mark.value);
    }
  }
}
