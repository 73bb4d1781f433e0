/** What holds in every reachable world: the invariants and their preservation by each shape. */
module Invariants {
  import opened Metadata
  import opened Ledger
  import opened Gates
  import opened Protocol
  import opened Shapes

  // ---------------------------------------------------------------- rows and locks

  predicate RowOk(op: Op, delivery: Delivery) {
    && Durable(op.state) && delivery == DeliveryFor(op.state)
    && (op.completed <==> Terminal(op.state))
    && (Written(op.state) ==> op.before.Some? && op.target.Some? && (op.kind.Undo? ==> op.rollback.Some?))
  }

  predicate RowsOk(db: Database) {
    && |db.outbox| == |db.ledger|
    && forall i :: 0 <= i < |db.ledger| ==> RowOk(db.ledger[i], db.outbox[i])
  }

  predicate LocksOk(db: Database) {
    && (forall b <- db.locks ::
          && db.locks[b].op < |db.ledger|
          && db.ledger[db.locks[b].op].book == b && Active(db.ledger[db.locks[b].op].state))
    && (forall i :: 0 <= i < |db.ledger| && Active(db.ledger[i].state) ==>
          db.ledger[i].book in db.locks && db.locks[db.ledger[i].book].op == i)
  }

  predicate KeysOk(db: Database) {
    forall i, j :: 0 <= i < j < |db.ledger| ==> db.ledger[i].key != db.ledger[j].key
  }

  lemma RowsAppend(db: Database, db': Database, op: Op)
    requires RowsOk(db) && LocksOk(db) && KeysOk(db) && Appends(db, db', op)
    ensures RowsOk(db') && LocksOk(db') && KeysOk(db')
  {
  }

  lemma RowsMove(db: Database, db': Database, i: nat, op: Op)
    requires RowsOk(db) && KeysOk(db) && Moves(db, db', i, op)
    ensures RowsOk(db') && KeysOk(db')
  {
  }

  lemma LocksMoveOk(db: Database, db': Database, i: nat, op: Op)
    requires LocksOk(db) && Moves(db, db', i, op)
    ensures LocksOk(db')
  {
    forall b <- db'.locks
      ensures db'.locks[b].op < |db'.ledger|
      ensures db'.ledger[db'.locks[b].op].book == b && Active(db'.ledger[db'.locks[b].op].state)
    {
      assert b in db.locks || b == op.book;
    }
    forall j | 0 <= j < |db'.ledger| && Active(db'.ledger[j].state)
      ensures db'.ledger[j].book in db'.locks && db'.locks[db'.ledger[j].book].op == j
    {
      assert j != i ==> db.ledger[j].book in db.locks;
    }
  }

  // ---------------------------------------------------------------- changes

  predicate ChangesOk(db: Database) {
    && (forall c :: 0 <= c < |db.changes| ==> ChangeOk(db, db.changes[c]))
    && (forall c, d :: 0 <= c < d < |db.changes| ==> db.changes[c].op != db.changes[d].op)
  }

  predicate ChangeOk(db: Database, change: Change) {
    && change.op < |db.ledger|
    && var op := db.ledger[change.op];
    && op.kind == Apply && Written(op.state) && op.book == change.book && op.before == Some(change.before)
    && (change.status == Undone ==> Terminal(op.state))
  }

  /** Undo requests name a change of their own book, and only an undo in force may hold it. */
  predicate UndoOk(db: Database, i: nat)
    requires i < |db.ledger| && db.ledger[i].kind.Undo?
  {
    var op := db.ledger[i]; var c := op.kind.change;
    && c < |db.changes| && op.book == db.changes[c].book
    && (op.state == Writing ==>
          && db.changes[c].status == Applied && op.target == Some(db.changes[c].before)
          && db.changes[c].op < |db.ledger| && Terminal(db.ledger[db.changes[c].op].state))
    && (op.state == Succeeded ==> db.changes[c].status == Undone && op.target == Some(db.changes[c].before))
  }

  predicate UndosOk(db: Database) {
    && (forall i :: 0 <= i < |db.ledger| && db.ledger[i].kind.Undo? ==> UndoOk(db, i))
    && (forall i, j :: 0 <= i < j < |db.ledger| && db.ledger[i].kind.Undo? && db.ledger[i].kind == db.ledger[j].kind
          ==> !(db.ledger[i].state == Succeeded && db.ledger[j].state == Succeeded))
  }

  lemma ChangesAppend(db: Database, db': Database, op: Op)
    requires ChangesOk(db) && UndosOk(db) && Appends(db, db', op) && db'.changes == db.changes
    ensures ChangesOk(db') && UndosOk(db')
  {
    forall c | 0 <= c < |db.changes|
      ensures ChangeOk(db', db.changes[c])
    {
      assert ChangeOk(db, db.changes[c]);
    }
    forall i | 0 <= i < |db'.ledger| && db'.ledger[i].kind.Undo?
      ensures UndoOk(db', i)
    {
      if i < |db.ledger| {
        assert UndoOk(db, i);
      }
    }
  }

  /** Moving a row without marking a change: every commit except the settling ones. */
  lemma ChangesMove(db: Database, db': Database, i: nat, op: Op)
    requires ChangesOk(db) && Moves(db, db', i, op) && db'.changes == db.changes
    ensures ChangesOk(db')
  {
    forall c | 0 <= c < |db.changes|
      ensures ChangeOk(db', db.changes[c])
    {
      assert ChangeOk(db, db.changes[c]);
    }
  }

  /** A row moves and no change is marked; an undo that begins has a settled, applied change. */
  lemma UndosMove(db: Database, db': Database, i: nat, op: Op)
    requires UndosOk(db) && Moves(db, db', i, op) && db'.changes == db.changes
    requires op.kind.Undo? && op.state == Writing ==> db'.ledger == db.ledger[i := op] && UndoOk(db', i)
    requires op.kind.Undo? ==> op.state != Succeeded
    ensures UndosOk(db')
  {
    forall j | 0 <= j < |db'.ledger| && db'.ledger[j].kind.Undo?
      ensures UndoOk(db', j)
    {
      assert UndoOk(db, j);
    }
  }

  /** When an undo begins, the lock rules out that its change's own operation is still writing. */
  lemma UndoBegins(db: Database, db': Database, i: nat, op: Op)
    requires LocksOk(db) && ChangesOk(db) && UndosOk(db) && Moves(db, db', i, op) && db'.changes == db.changes
    requires db.ledger[i].state == Claimed && op.state == Writing && op.kind.Undo?
    requires op.kind.change < |db.changes| && db.changes[op.kind.change].status == Applied
    requires op.target == Some(db.changes[op.kind.change].before)
    ensures UndoOk(db', i)
  {
    var c := op.kind.change;
    assert UndoOk(db, i);
    assert ChangeOk(db, db.changes[c]);
    var j := db.changes[c].op;
    assert i != j;
  }

  /** Marking the change of an operation that is still writing disturbs no undo. */
  lemma MarkOwn(db: Database, db': Database, c: nat, status: ChangeStatus)
    requires ChangesOk(db) && UndosOk(db)
    requires Marks(db.changes, db'.changes, c, status) && status != Undone && db'.ledger == db.ledger
    requires db.changes[c].op < |db.ledger| && db.ledger[db.changes[c].op].state == Writing
    ensures ChangesOk(db') && UndosOk(db')
  {
    assert ChangeOk(db, db.changes[c]);
    forall d | 0 <= d < |db'.changes|
      ensures ChangeOk(db', db'.changes[d])
    {
      assert ChangeOk(db, db.changes[d]);
    }
    forall i | 0 <= i < |db'.ledger| && db'.ledger[i].kind.Undo?
      ensures UndoOk(db', i)
    {
      assert UndoOk(db, i);
    }
  }

  /** A successful undo retires its change for good. */
  lemma UndoSucceeds(db: Database, db': Database, i: nat, op: Op)
    requires ChangesOk(db) && UndosOk(db) && Moves(db, db', i, op)
    requires op.kind.Undo? && op.state == Succeeded
    requires Marks(db.changes, db'.changes, op.kind.change, Undone)
    ensures ChangesOk(db')
  {
    assert UndoOk(db, i);
    forall d | 0 <= d < |db'.changes|
      ensures ChangeOk(db', db'.changes[d])
    {
      assert ChangeOk(db, db.changes[d]);
    }
  }

  lemma UndoIsFinal(db: Database, db': Database, i: nat, op: Op)
    requires LocksOk(db) && UndosOk(db) && Moves(db, db', i, op)
    requires op.kind.Undo? && op.state == Succeeded && op.target == db.ledger[i].target
    requires Marks(db.changes, db'.changes, op.kind.change, Undone)
    ensures UndosOk(db')
  {
    assert UndoOk(db, i);
    forall j | 0 <= j < |db.ledger| && j != i && db.ledger[j].kind.Undo?
      ensures UndoOk(db', j)
      ensures db.ledger[j].kind == op.kind ==> db.ledger[j].state != Succeeded
    {
      assert UndoOk(db, j);
      assert db.ledger[j].kind == op.kind ==> db.ledger[j].state != Writing;
    }
    assert UndoOk(db', i);
  }

  lemma RecordOk(db: Database, db': Database, record: Change)
    requires ChangesOk(db) && UndosOk(db) && db'.ledger == db.ledger && db'.changes == db.changes + [record]
    requires ChangeOk(db, record) && forall c :: 0 <= c < |db.changes| ==> db.changes[c].op != record.op
    ensures ChangesOk(db') && UndosOk(db')
  {
    forall d | 0 <= d < |db'.changes|
      ensures ChangeOk(db', db'.changes[d])
    {
      assert d < |db.changes| ==> ChangeOk(db, db.changes[d]);
    }
    forall i | 0 <= i < |db'.ledger| && db'.ledger[i].kind.Undo?
      ensures UndoOk(db', i)
    {
      assert UndoOk(db, i);
    }
  }

  // ---------------------------------------------------------------- pilots

  predicate PilotsOk(db: Database) {
    && (forall p <- db.pilots :: PilotOk(db, p))
    && (forall i :: 0 <= i < |db.ledger| && db.ledger[i].pilot.Some? ==> db.ledger[i].pilot.value in db.pilots)
    && (forall i, j :: 0 <= i < j < |db.ledger| && db.ledger[i].pilot.Some? && db.ledger[i].pilot == db.ledger[j].pilot
          ==> db.ledger[i].state == Succeeded)
  }

  predicate PilotOk(db: Database, p: string)
    requires p in db.pilots
  {
    1 <= db.pilots[p].max <= 5 && db.pilots[p].reserved == Bound(db.ledger, p) <= db.pilots[p].max
  }

  lemma {:induction false} BoundMove(ledger: seq<Op>, i: nat, op: Op, p: string)
    requires i < |ledger| && op.pilot == ledger[i].pilot
    ensures Bound(ledger[i := op], p) == Bound(ledger, p)
  {
    var n := |ledger| - 1;
    if i < n {
      assert ledger[i := op][..n] == ledger[..n][i := op];
      BoundMove(ledger[..n], i, op, p);
    } else {
      assert ledger[i := op][..n] == ledger[..n];
    }
  }

  lemma {:induction false} BoundNone(ledger: seq<Op>, p: string)
    requires forall i :: 0 <= i < |ledger| ==> ledger[i].pilot != Some(p)
    ensures Bound(ledger, p) == 0
  {
    if ledger != [] {
      BoundNone(ledger[..|ledger| - 1], p);
    }
  }

  lemma BoundAppend(ledger: seq<Op>, op: Op, p: string)
    ensures Bound(ledger + [op], p) == Bound(ledger, p) + if op.pilot == Some(p) then 1 else 0
  {
    assert (ledger + [op])[..|ledger|] == ledger;
  }

  lemma PilotsMove(db: Database, db': Database, i: nat, op: Op)
    requires PilotsOk(db) && Moves(db, db', i, op)
    ensures PilotsOk(db')
  {
    forall p <- db'.pilots
      ensures PilotOk(db', p)
    {
      assert PilotOk(db, p);
      BoundMove(db.ledger, i, op, p);
    }
  }

  lemma PilotsAppend(db: Database, db': Database, op: Op)
    requires PilotsOk(db) && Appends(db, db', op) && op.pilot == None && db'.pilots == db.pilots
    ensures PilotsOk(db')
  {
    forall p <- db'.pilots
      ensures PilotOk(db', p)
    {
      assert PilotOk(db, p);
      BoundAppend(db.ledger, op, p);
    }
  }

  /** A reservation spends one unit of the budget, and only after every earlier operation of the pilot succeeded. */
  lemma PilotsReserve(db: Database, db': Database, op: Op, g: Guard)
    requires RowsOk(db) && PilotsOk(db) && Appends(db, db', op) && op.pilot == Some(g.pilot)
    requires Reservable(db, g) && Quiescent(db, g.pilot) && 1 <= g.max <= 5
    requires db'.pilots == db.pilots[g.pilot := PilotFor(db, g).(reserved := PilotFor(db, g).reserved + 1)]
    ensures PilotsOk(db')
  {
    forall p <- db'.pilots
      ensures PilotOk(db', p)
    {
      assert p in db.pilots ==> PilotOk(db, p);
      BoundAppend(db.ledger, op, p);
    }
    forall i | 0 <= i < |db.ledger| && db.ledger[i].pilot == op.pilot
      ensures db.ledger[i].state == Succeeded
    {
      assert RowOk(db.ledger[i], db.outbox[i]);
      assert !Cleared(db, i, g.pilot);
    }
  }

  lemma PilotsStop(db: Database, db': Database, p: string)
    requires PilotsOk(db) && p in db.pilots && db'.ledger == db.ledger
    requires db'.pilots == db.pilots[p := db.pilots[p].(state := Stopped)]
    ensures PilotsOk(db')
  {
    forall q <- db'.pilots
      ensures PilotOk(db', q)
    {
      assert PilotOk(db, q);
    }
  }

  // ---------------------------------------------------------------- evidence

  /** The request is about the book as it was sealed and as it was validated; the patch is the sealed
      package's, less the fields the book locked then, and a stored authorization names that package and
      that patch. */
  predicate Justified(db: Database, op: Op, book: Book) {
    && op.evidence.Some? && LoadPackage(db, op.evidence.value).Some?
    && var pkg := LoadPackage(db, op.evidence.value).value;
    && SnapshotValid(op.book, book, pkg) && op.run == book.run && op.calibreId == book.calibreId
    && op.v2 && op.verdict == Some(pkg.sha256) && op.locksHash == Some(book.fieldLocks)
    && pkg.tierA && Canonical(op.patch) && op.patch == PatchFor(pkg, book)
    && op.authorization.Some? && Authorized(db, op.authorization.value, op.book, book, pkg, op.patch)
  }

  /** The write started from a reading that showed what was authorized, over the sealed files. */
  predicate Started(db: Database, op: Op, start: Reading) {
    && op.before == Some(start.meta)
    && op.expected.Some? && MatchesPatch(start.files, start.meta, op.expected.value)
    && op.evidence.Some? && LoadPackage(db, op.evidence.value).Some?
    && SameFiles(start.files, LoadPackage(db, op.evidence.value).value, start.meta)
    && (op.state == Writing ==> op.target == Some(TargetOf(start.meta, op.patch)))
  }

  predicate Verified(db: Database, op: Op, accepted: Reading, last: Reading) {
    && op.before.Some? && op.observed == Some(last.meta)
    && MatchesPatch(last.files, last.meta, Align(TargetOf(op.before.value, op.patch), accepted.meta))
    && op.evidence.Some? && LoadPackage(db, op.evidence.value).Some?
    && SameContents(accepted.files, LoadPackage(db, op.evidence.value).value, accepted.meta)
  }

  predicate RowEvidence(db: Database, op: Op, t: Trail) {
    && (op.state == Claimed && t.validated.Some? ==> Justified(db, op, t.validated.value))
    && (Written(op.state) ==> op.book in db.books && db.books[op.book].calibreId != 0)
    && (op.kind == Apply && Written(op.state) ==>
          && t.validated.Some? && Justified(db, op, t.validated.value)
          && t.start.Some? && Started(db, op, t.start.value))
    && (op.kind.Undo? && Written(op.state) ==>
          && t.start.Some? && op.before == Some(t.start.value.meta) && op.expected.Some?
          && MatchesPatch(t.start.value.files, t.start.value.meta, op.expected.value))
    && (op.state == Succeeded ==> t.last.Some?)
    && (op.kind == Apply && op.state == Succeeded ==>
          t.accepted.Some? && Verified(db, op, t.accepted.value, t.last.value))
    && (op.kind.Undo? && op.state == Succeeded ==>
          && op.observed == Some(t.last.value.meta) && op.target.Some?
          && MatchesPatch(t.last.value.files, t.last.value.meta, op.target.value))
    && (op.state == Restored ==> op.before.Some? && t.last.Some? && Agrees(t.last.value.meta, op.before.value))
  }

  predicate EvidenceOk(w: World) {
    forall i :: 0 <= i < |w.db.ledger| ==> RowEvidence(w.db, w.db.ledger[i], TrailOf(w.log, i))
  }

  lemma EvidenceGrows(db: Database, db': Database, op: Op, t: Trail)
    requires RowEvidence(db, op, t) && Grows(db, db')
    ensures RowEvidence(db', op, t)
  {
  }

  // ---------------------------------------------------------------- readings and write-ahead

  /** What was read for an operation in progress is still shown, unless somebody else edited the book since. */
  ghost predicate RowFresh(w: World, i: nat)
    requires i < |w.db.ledger|
  {
    Active(w.db.ledger[i].state) ==>
      forall r :: Made(w.log, i, r) ==> Shows(w, w.db.ledger[i].book, r)
  }

  ghost predicate FreshOk(w: World) {
    forall i :: 0 <= i < |w.db.ledger| ==> RowFresh(w, i)
  }

  /** As long as nobody else edits the book, an apply without a recorded change has not touched it. */
  predicate AheadOk(w: World) {
    forall i :: 0 <= i < |w.db.ledger| ==> RowAhead(w, i)
  }

  predicate RowAhead(w: World, i: nat)
    requires i < |w.db.ledger|
  {
    var op, t := w.db.ledger[i], TrailOf(w.log, i);
    (op.state == Writing && op.kind == Apply && FindChange(w.db.changes, i).None?) ==>
      t.start.Some? && Shows(w, op.book, t.start.value)
  }
}
