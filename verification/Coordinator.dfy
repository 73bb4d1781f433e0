/** The API's side of the protocol: reserve a supervised write, queue an undo, stop a pilot,
    acknowledge a failure. Each runs in one transaction that commits or rolls back. */
module Coordinator {
  import opened Metadata
  import opened Ledger
  import opened Gates
  import opened Boundary
  import opened Protocol
  import opened Store

  // ---------------------------------------------------------------- queries

  method CountBound(ledger: seq<Op>, pilot: string) returns (n: nat)
    ensures n == Bound(ledger, pilot)
  {
    n := 0;
    for i := 0 to |ledger|
      invariant n == Bound(ledger[..i], pilot)
    {
      assert ledger[..i + 1][..i] == ledger[..i];
      if ledger[i].pilot == Some(pilot) {
        n := n + 1;
      }
    }
    assert ledger[..|ledger|] == ledger;
  }

  method AllTerminal(ledger: seq<Op>) returns (all: bool)
    ensures all <==> forall i :: 0 <= i < |ledger| ==> Terminal(ledger[i].state)
  {
    for i := 0 to |ledger|
      invariant forall k :: 0 <= k < i ==> Terminal(ledger[k].state)
    {
      if !Terminal(ledger[i].state) {
        return false;
      }
    }
    all := true;
  }

  /** The outer join over outbox, ledger, acknowledgements, pilots and locks finds nothing in the way. */
  method NothingInTheWay(db: Database, pilot: string) returns (clear: bool)
    requires |db.outbox| == |db.ledger|
    ensures clear <==> forall i :: 0 <= i < |db.ledger| ==> db.outbox[i] == Published || Cleared(db, i, pilot)
  {
    for i := 0 to |db.outbox|
      invariant forall k :: 0 <= k < i ==> db.outbox[k] == Published || Cleared(db, k, pilot)
    {
      if db.outbox[i] != Published && !Cleared(db, i, pilot) {
        return false;
      }
    }
    clear := true;
  }

  /** `create_operation`: one row and one event, or the earlier row with the same idempotency key. */
  method CreateOperation(db: Database, op: Op) returns (next: Database, i: nat)
    ensures KeyFree(db, op.key) ==> next == Enqueue(db, op) && i == |db.ledger|
    ensures !KeyFree(db, op.key) ==> next == db && i < |db.ledger| && db.ledger[i].key == op.key
  {
    i := 0;
    while i < |db.ledger|
      invariant 0 <= i <= |db.ledger|
      invariant forall k :: 0 <= k < i ==> db.ledger[k].key != op.key
    {
      if db.ledger[i].key == op.key {
        return db, i;
      }
      i := i + 1;
    }
    next := Enqueue(db, op);
  }

  // ---------------------------------------------------------------- requests

  /** The checks of `queue_v2_operation` in order, and the tables to commit when all of them pass. */
  method TryReserve(db: Database, evidence: string, authorization: string, g: Guard) returns (next: Option<Database>)
    requires |db.outbox| == |db.ledger|
    ensures next.Some? <==> Admissible(db, evidence, authorization, g)
    ensures next.Some? ==> next.value == Reserve(db, evidence, authorization, g)
    ensures next.Some? ==>
              && evidence in db.packages && db.packages[evidence].book in db.books
              && authorization in db.authorizations
              && var pkg, granted := db.packages[evidence], db.authorizations[authorization];
              var locks := db.books[pkg.book].fieldLocks;
              && granted.book == pkg.book && granted.run == pkg.run && granted.verdict == pkg.sha256
              && (forall field: Field :: field in granted.patch <==> field in pkg.autoPatch && field !in locks)
              && forall field <- granted.patch :: granted.patch[field] == pkg.autoPatch[field]
  {
    RequestableIff(db, evidence, authorization, g);
    if !Requestable(db, evidence, authorization, g) {
      return None;
    }
    var bound := CountBound(db.ledger, g.pilot);
    var stored := PilotFor(db, g);
    if stored.root != g.root || stored.release != g.release || stored.revision != g.revision || stored.max != g.max
       || stored.state != Open || stored.reserved != bound || stored.reserved >= stored.max {
      return None;
    }
    var settled := AllTerminal(db.ledger);
    if !settled {
      return None;
    }
    var clear := NothingInTheWay(db, g.pilot);
    if !clear {
      return None;
    }
    var queued, i := CreateOperation(db, V2Row(db, evidence, authorization, g));
    if i < |db.ledger| {
      return None;
    }
    next := Some(queued.(pilots := queued.pilots[g.pilot := stored.(reserved := stored.reserved + 1)]));
  }

  /** `queue_v2_operation`: succeeds exactly when the request is admissible, and then reserves one
      operation; otherwise the transaction is rolled back. */
  method QueueV2Operation(s: Store, evidence: string, authorization: string, g: Guard) returns (queued: Option<nat>)
    requires s.Valid()
    modifies s
    ensures s.Valid() && old(s.history) <= s.history
    ensures queued.Some? <==> Admissible(old(s.db), evidence, authorization, g)
    ensures queued.Some? ==>
              queued.value == |old(s.db.ledger)| && s.db == Reserve(old(s.db), evidence, authorization, g)
    ensures queued.None? ==> s.db == old(s.db)
  {
    RowsMatch(s.history);
    var next := TryReserve(s.db, evidence, authorization, g);
    if next.None? {
      return None;
    }
    queued := Some(|s.db.ledger|);
    s.Commit(next.value, s.log, Event.QueueV2(evidence, authorization, g));
  }

  /** `queue_undo_operation`: idempotent per change and status. */
  method QueueUndoOperation(s: Store, c: nat) returns (i: nat)
    requires s.Valid() && c < |s.db.changes|
    modifies s
    ensures s.Valid() && old(s.history) <= s.history
    ensures i < |s.db.ledger| && s.db.ledger[i].key == UndoKey(c, old(s.db.changes[c].status))
    ensures if KeyFree(old(s.db), UndoKey(c, old(s.db.changes[c].status)))
            then i == |old(s.db.ledger)| && s.db == Enqueue(old(s.db), UndoRow(old(s.db), c)) else s.db == old(s.db)
    ensures i == |old(s.db.ledger)| ==>
              var op, change := s.db.ledger[i], s.db.changes[c];
              && op.kind == Undo(c) && op.expected == Some(change.after) && op.patch == map[]
              && op.book == change.book && op.run == change.run
  {
    var next;
    next, i := CreateOperation(s.db, UndoRow(s.db, c));
    if i == |s.db.ledger| {
      s.Commit(next, s.log, Event.QueueUndo(c));
    }
  }

  /** `pilot-stop`. */
  method StopPilot(s: Store, p: string) returns (found: bool)
    requires s.Valid()
    modifies s
    ensures s.Valid() && old(s.history) <= s.history
    ensures found <==> p in old(s.db.pilots)
    ensures s.db == if !found then old(s.db)
                    else old(s.db).(pilots := old(s.db.pilots)[p := old(s.db.pilots)[p].(state := Stopped)])
  {
    found := p in s.db.pilots;
    if found {
      if s.db.pilots[p].state != Stopped {
        s.Commit(s.db.(pilots := s.db.pilots[p := s.db.pilots[p].(state := Stopped)]), s.log, Event.StopPilot(p));
      } else {
        assert s.db.pilots[p := s.db.pilots[p].(state := Stopped)] == s.db.pilots;
      }
    }
  }

  /** The checks of `acknowledge_v2_failure` in order. */
  method MayAcknowledge(db: Database, i: nat) returns (may: bool)
    ensures may <==> Acknowledgeable(db, i)
  {
    if i >= |db.ledger| {
      return false;
    }
    var op := db.ledger[i];
    if !op.v2 || op.state != OpState.Failed || !op.completed || op.pilot.None? {
      return false;
    }
    if op.pilot.value !in db.pilots || db.pilots[op.pilot.value].state != Stopped || i in db.acks {
      return false;
    }
    may := i < |db.outbox| && db.outbox[i] == Undelivered && op.book !in db.locks;
  }

  /** `acknowledge_v2_failure`; `worded` says the actor and the reason pass their length checks. */
  method AcknowledgeFailure(s: Store, i: nat, worded: bool) returns (recorded: bool)
    requires s.Valid()
    modifies s
    ensures s.Valid() && old(s.history) <= s.history
    ensures recorded <==> worded && Acknowledgeable(old(s.db), i)
    ensures s.db == if recorded then old(s.db).(acks := old(s.db.acks) + {i}) else old(s.db)
  {
    if !worded {
      return false;
    }
    recorded := MayAcknowledge(s.db, i);
    if recorded {
      s.Commit(s.db.(acks := s.db.acks + {i}), s.log, Event.Acknowledge(i));
    }
  }

  // ---------------------------------------------------------------- the writer's boundary

  /** `validate_apply_operation`: the checks in order, on the rows as they are. */
  method ValidateApply(db: Database, op: Op, book: Book, runtime: Option<Guard>) returns (valid: bool)
    ensures valid <==> ValidApply(db, op, book, runtime)
    ensures valid ==>
              && op.authorization.Some? && op.authorization.value in db.authorizations
              && op.evidence.Some? && op.evidence.value in db.packages
              && var granted := db.authorizations[op.authorization.value];
              && granted.book == op.book && granted.run == op.run && granted.patch == op.patch
              && granted.verdict == db.packages[op.evidence.value].sha256
  {
    ValidApplyIff(db, op, book, runtime);
    if !op.v2 {
      return false;
    }
    if op.kind != Apply || op.evidence.None? || op.run != book.run || op.calibreId != book.calibreId
       || op.locksHash != Some(book.fieldLocks) {
      return false;
    }
    var loaded := LoadPackage(db, op.evidence.value);
    if loaded.None? || !SnapshotValid(op.book, book, loaded.value) || runtime.None? {
      return false;
    }
    var pkg, g := loaded.value, runtime.value;
    if !GuardValid(g, pkg) || op.pilot != Some(g.pilot) || g.pilot !in db.pilots {
      return false;
    }
    var stored := db.pilots[g.pilot];
    var bound := CountBound(db.ledger, g.pilot);
    if stored.reserved != bound || stored.state != Open || stored.reserved < 1 || stored.reserved > stored.max
       || stored.root != g.root || stored.release != g.release || stored.revision != g.revision
       || stored.revision != g.schema || stored.max != g.max {
      return false;
    }
    if !Canonical(pkg.autoPatch) {
      return false;
    }
    var patch := PatchFor(pkg, book);
    if !pkg.tierA || op.verdict != Some(pkg.sha256) || op.patch != patch || op.patchHash != Some(patch) {
      return false;
    }
    valid := op.authorization.Some? && Authorized(db, op.authorization.value, op.book, book, pkg, patch);
  }
}
