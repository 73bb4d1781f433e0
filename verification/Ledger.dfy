/** The durable rows of the write protocol and the transition table every operation obeys. */
module Ledger {
  import opened Metadata

  datatype OpState =
    | Requested | Claimed | Writing | Verifying | Restoring
    | Succeeded | Restored | RestoreFailed | Unknown | Failed | Cancelled

  function Allowed(s: OpState): set<OpState> {
    match s
    case Requested => {Claimed, Cancelled}
    case Claimed => {Requested, Writing, Failed, Cancelled}
    case Writing => {Verifying, Restoring, Unknown}
    case Verifying => {Succeeded, Restoring, Unknown}
    case Restoring => {Restored, RestoreFailed}
    case _ => {}
  }

  predicate Terminal(s: OpState) {
    s.Succeeded? || s.Restored? || s.RestoreFailed? || s.Unknown? || s.Failed? || s.Cancelled?
  }

  /** Held by a writer: exactly these states own the book's write lock. */
  predicate Active(s: OpState) {
    s.Claimed? || s.Writing?
  }

  /** Past the point where the library may have been written. */
  predicate Written(s: OpState) {
    s.Writing? || s.Succeeded? || s.Restored? || s.RestoreFailed? || s.Unknown?
  }

  /** The states a commit may leave behind. */
  predicate Durable(s: OpState) {
    s.Requested? || s.Failed? || Active(s) || Written(s)
  }

  function Rank(s: OpState): nat {
    match s
    case Requested => 0
    case Claimed => 0
    case Writing => 1
    case Verifying => 2
    case Restoring => 3
    case _ => 4
  }

  /** The only cycle in the table is requested/claimed; a state is final exactly when it allows nothing. */
  lemma OnlyClaimsCycle(s: OpState, t: OpState)
    ensures Terminal(s) <==> Allowed(s) == {}
    ensures t in Allowed(s) ==> Rank(s) < Rank(t) || (s.Requested? && t.Claimed?) || (s.Claimed? && t.Requested?)
    ensures t in Allowed(s) && Rank(s) == 0 && Rank(t) > 0 ==> s.Claimed? || t.Cancelled?
  {
    match s
    case Requested => assert Claimed in Allowed(s);
    case Claimed => assert Failed in Allowed(s);
    case Writing => assert Unknown in Allowed(s);
    case Verifying => assert Unknown in Allowed(s);
    case Restoring => assert Restored in Allowed(s);
    case _ =>
  }

  /** The table read backwards: from which states each state can be entered. */
  lemma EnteredFrom(s: OpState, t: OpState)
    ensures t in Allowed(s) <==>
            match t
            case Requested => s == Claimed
            case Claimed => s == Requested
            case Writing => s == Claimed
            case Verifying => s == Writing
            case Restoring => s == Writing || s == Verifying
            case Succeeded => s == Verifying
            case Restored => s == Restoring
            case RestoreFailed => s == Restoring
            case Unknown => s == Writing || s == Verifying
            case Failed => s == Claimed
            case Cancelled => s == Requested || s == Claimed
  {
    match s
    case Requested =>
    case Claimed =>
    case Writing =>
    case Verifying =>
    case Restoring =>
    case _ =>
  }

  datatype ChangeStatus = PendingApply | Applied | RolledBack | RollbackFailed | Undone

  datatype Kind = Apply | Undo(change: nat)

  datatype IdempotencyKey =
    | ApplyV2Key(pilot: string, evidence: string, patch: Meta)
    | LegacyKey(run: string, book: string, patch: Meta)
    | UndoKey(change: nat, status: ChangeStatus)

  /** One ledger row. A stored digest is represented by the value it digests. */
  datatype Op = Op(
    key: IdempotencyKey, kind: Kind, v2: bool, book: string, run: string, calibreId: nat,
    state: OpState, patch: Meta, expected: Option<Meta>,
    before: Option<Meta>, target: Option<Meta>, observed: Option<Meta>,
    authorization: Option<string>, verdict: Option<string>, patchHash: Option<Meta>, locksHash: Option<Meta>,
    evidence: Option<string>, pilot: Option<string>,
    rollback: Option<string>, lease: Option<nat>, completed: bool)
  {
    /** `transition_operation`; callers must respect the table, or the source raises. */
    function To(next: OpState): (r: Op)
      requires next in Allowed(state)
      ensures r.state == next && SameRequest(this, r)
      ensures r.completed == (completed || Terminal(next))
    {
      this.(state := next, completed := completed || Terminal(next))
    }
  }

  /** Everything about a row that is fixed when it is queued. */
  predicate SameRequest(a: Op, b: Op) {
    && a.key == b.key && a.kind == b.kind && a.v2 == b.v2 && a.book == b.book && a.run == b.run
    && a.calibreId == b.calibreId && a.patch == b.patch && a.expected == b.expected
    && a.authorization == b.authorization && a.verdict == b.verdict && a.patchHash == b.patchHash
    && a.locksHash == b.locksHash && a.evidence == b.evidence && a.pilot == b.pilot
  }

  datatype Delivery = Pending | Processing | Published | Undelivered

  datatype Lock = Lock(op: nat, until: nat)

  datatype Change = Change(
    op: nat, book: string, run: string, before: Meta, after: Meta,
    backup: string, cover: Option<string>, custom: map<Field, string>, status: ChangeStatus)

  datatype PilotState = Open | Stopped | Completed

  datatype Pilot = Pilot(root: string, release: string, revision: string, max: int, reserved: nat, state: PilotState)

  datatype Book = Book(run: string, calibreId: nat, calibre: bool, files: seq<string>, current: Meta, fieldLocks: Meta)

  datatype Packaged = Packaged(path: string, file: File)

  /** A stored evidence package; `sealed` says its seal and stored columns verify. */
  datatype Package = Package(
    book: string, run: string, calibreId: nat, sealed: bool, sha256: string, tierA: bool,
    remote: bool, failed: bool, shadowed: bool, current: Meta, files: seq<string>,
    root: Option<string>, autoPatch: Meta, formats: seq<Packaged>)

  datatype Authorization = Authorization(book: string, run: string, verdict: string, patch: Meta)

  /** All tables. Operation `i` is row `i` of the ledger and owns event `i` of the outbox. */
  datatype Database = Database(
    ledger: seq<Op>, outbox: seq<Delivery>, locks: map<string, Lock>, changes: seq<Change>,
    pilots: map<string, Pilot>, acks: set<nat>,
    books: map<string, Book>, packages: map<string, Package>, authorizations: map<string, Authorization>)

  // ---------------------------------------------------------------- row operations

  predicate KeyFree(db: Database, key: IdempotencyKey) {
    forall i :: 0 <= i < |db.ledger| ==> db.ledger[i].key != key
  }

  /** A row as `create_operation` writes it: nothing has happened to it yet. */
  predicate Fresh(op: Op) {
    && op.state == Requested && !op.completed && op.before == None && op.target == None && op.observed == None
    && op.rollback == None && op.lease == None
  }

  function Enqueue(db: Database, op: Op): Database {
    db.(ledger := db.ledger + [op], outbox := db.outbox + [Pending])
  }

  function Replace(db: Database, i: nat, op: Op, delivery: Delivery): Database
    requires i < |db.ledger| && i < |db.outbox|
  {
    db.(ledger := db.ledger[i := op], outbox := db.outbox[i := delivery])
  }

  function Unlock(locks: map<string, Lock>, book: string, i: nat): map<string, Lock> {
    if book in locks && locks[book].op == i then locks - {book} else locks
  }

  /** Save the row and `_finish_outbox`: settle the event and drop the lock the operation holds. */
  function Finish(db: Database, i: nat, op: Op, delivery: Delivery): Database
    requires i < |db.ledger| && i < |db.outbox|
  {
    Replace(db, i, op, delivery).(locks := Unlock(db.locks, op.book, i))
  }

  /** The change an operation recorded, if any. */
  function FindChange(changes: seq<Change>, i: nat): (r: Option<nat>)
    ensures r.Some? ==> r.value < |changes| && changes[r.value].op == i
    ensures r.None? ==> forall c :: 0 <= c < |changes| ==> changes[c].op != i
  {
    if changes == [] then None
    else if changes[|changes| - 1].op == i then Some(|changes| - 1)
    else FindChange(changes[..|changes| - 1], i)
  }

  function SetStatus(changes: seq<Change>, c: nat, status: ChangeStatus): seq<Change>
    requires c < |changes|
  {
    changes[c := changes[c].(status := status)]
  }

  /** Set the status of the change operation `i` recorded; nothing when it recorded none. */
  function SetOwnStatus(changes: seq<Change>, i: nat, status: ChangeStatus): seq<Change> {
    match FindChange(changes, i)
    case None => changes
    case Some(c) => SetStatus(changes, c, status)
  }

  /** The number of ledger rows bound to a pilot. */
  function Bound(ledger: seq<Op>, pilot: string): nat {
    if ledger == [] then 0
    else Bound(ledger[..|ledger| - 1], pilot) + if ledger[|ledger| - 1].pilot == Some(pilot) then 1 else 0
  }
}
