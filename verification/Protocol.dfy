/** The write protocol as a state machine. Each event is one commit, one library call or one
    edit by somebody else; a crash may separate any two of them, so every reachable world is a
    possible crash point. */
module Protocol {
  import opened Metadata
  import opened Ledger
  import opened Gates

  /** The Calibre library: live metadata by book key, and the files on disk. It has no transactions. */
  datatype Library = Library(meta: map<string, Meta>, files: Files)

  /** What one call for a book's metadata returns, with the files as they are at that moment. */
  datatype Read = Read(meta: Meta, files: Files)

  /** Such an answer, and how many edits by other people the library had seen when it was given. */
  datatype Reading = Reading(meta: Meta, files: Files, at: nat)

  /** What happened to one operation, kept beside the tables for the sake of stating properties: the book
      row it was last validated against, the readings made for it since it was claimed or last touched the
      library, among its readings the one it started from, the one whose files were accepted, and the
      last one, and the number of library calls made for it that write. */
  datatype Trail = Trail(
    validated: Option<Book>, readings: seq<Reading>,
    start: Option<Reading>, accepted: Option<Reading>, last: Option<Reading>, calls: nat)

  /** `edits` lists the books that anybody but the writer has edited in the library, in order. */
  datatype Log = Log(edits: seq<string>, trails: map<nat, Trail>)

  function TrailOf(log: Log, i: nat): Trail {
    if i in log.trails then log.trails[i] else Trail(None, [], None, None, None, 0)
  }

  function Note(log: Log, i: nat, trail: Trail): Log {
    log.(trails := log.trails[i := trail])
  }

  datatype World = World(db: Database, lib: Library, log: Log)

  datatype Event =
      // the API
    | QueueV2(evidence: string, authorization: string, guard: Guard)
    | QueueUndo(change: nat)
    | QueueLegacy(row: Op)
    | StopPilot(pilot: string)
    | Acknowledge(op: nat)
    | StoreBook(key: string, book: Book)
    | StorePackage(evidence: string, pkg: Package)
    | StoreAuthorization(id: string, authz: Authorization)
      // somebody else edits the library
    | ForeignEdit(key: string, lib: Library)
      // the writer
    | Claim(op: nat, until: nat)
    | Release(op: nat, now: nat)
    | Reject(op: nat)
    | Validate(op: nat, runtime: Option<Guard>)
    | Observe(op: nat)
    | BeginApply(op: nat, reading: Reading)
    | BeginUndo(op: nat, reading: Reading, backup: string)
    | RecordChange(op: nat, record: Change)
    | Touch(op: nat, lib: Library)
    | MarkChange(op: nat, status: ChangeStatus, verdict: Option<Reading>)
    | SucceedApply(op: nat, accepted: Reading, reading: Reading)
    | SucceedUndo(op: nat, reading: Reading)
    | Restore(op: nat, target: Meta, observed: Option<Meta>, reading: Reading)
    | Abort(op: nat, outcome: OpState, target: Meta, observed: Option<Meta>, mark: Option<ChangeStatus>)

  /** The way back is durable: a recorded change, or the artifact saved before an undo. */
  predicate HasRestorePoint(db: Database, i: nat)
    requires i < |db.ledger|
  {
    match db.ledger[i].kind
    case Apply => FindChange(db.changes, i).Some?
    case Undo(_) => db.ledger[i].rollback.Some?
  }

  /** The change operation `i` recorded, and its status. */
  predicate Recorded(db: Database, i: nat, status: ChangeStatus) {
    FindChange(db.changes, i).Some? && db.changes[FindChange(db.changes, i).value].status == status
  }

  /** Two library states whose metadata differ at most in one book. */
  ghost predicate OnlyBook(lib: Library, lib': Library, key: string) {
    forall k :: k != key ==> (k in lib'.meta <==> k in lib.meta) && (k in lib.meta ==> lib'.meta[k] == lib.meta[k])
  }

  /** Somebody else has edited the book since a reading was made. */
  predicate EditedSince(log: Log, book: string, reading: Reading) {
    reading.at <= |log.edits| && book in log.edits[reading.at..]
  }

  /** The library still shows a reading, unless somebody else has edited the book since. */
  predicate Shows(w: World, book: string, reading: Reading) {
    && reading.at <= |w.log.edits|
    && (!EditedSince(w.log, book, reading) ==> book in w.lib.meta && w.lib.meta[book] == reading.meta)
  }

  /** The book of operation `i` as the library shows it now. */
  function Observed(w: World, i: nat): Reading
    requires i < |w.db.ledger| && w.db.ledger[i].book in w.lib.meta
  {
    Reading(w.lib.meta[w.db.ledger[i].book], w.lib.files, |w.log.edits|)
  }

  /** The log after that reading. */
  function ObservedLog(w: World, i: nat): Log
    requires i < |w.db.ledger| && w.db.ledger[i].book in w.lib.meta
  {
    Note(w.log, i, TrailOf(w.log, i).(readings := TrailOf(w.log, i).readings + [Observed(w, i)]))
  }

  /** A reading made for operation `i`, since it was claimed or last touched the library. */
  predicate Made(log: Log, i: nat, reading: Reading) {
    reading in TrailOf(log, i).readings
  }

  /** The log after a library call that writes: what was read before no longer counts. */
  function TouchedLog(log: Log, i: nat): Log {
    Note(log, i, TrailOf(log, i).(readings := [], calls := TrailOf(log, i).calls + 1))
  }

  // ---------------------------------------------------------------- new rows

  function WritingRow(op: Op, before: Meta, target: Meta): Op
    requires op.state == Claimed
  {
    op.To(Writing).(before := Some(before), target := Some(target))
  }

  /** A verified write passes through `verifying` in memory before it is committed as succeeded. */
  function SucceededRow(op: Op, target: Meta, observed: Meta): Op
    requires op.state == Writing
  {
    op.To(Verifying).To(Succeeded).(target := Some(target), observed := Some(observed))
  }

  function RestoredRow(op: Op, target: Meta, observed: Option<Meta>): Op
    requires op.state == Writing
  {
    op.To(Restoring).To(Restored).(target := Some(target), observed := observed)
  }

  function AbortedRow(op: Op, outcome: OpState, target: Meta, observed: Option<Meta>): Op
    requires op.state == Writing && (outcome == Unknown || outcome == RestoreFailed)
  {
    (if outcome == Unknown then op.To(Unknown) else op.To(Restoring).To(RestoreFailed))
      .(target := Some(target), observed := observed)
  }

  // ---------------------------------------------------------------- claiming

  /** The tables after a claim: the row, its event and the book's lock. */
  function ClaimedTables(db: Database, i: nat, until: nat): Database
    requires InState(db, i, Requested)
  {
    Replace(db, i, db.ledger[i].To(Claimed).(lease := Some(until)), Processing)
      .(locks := db.locks[db.ledger[i].book := Lock(i, until)])
  }

  // ---------------------------------------------------------------- announcing a write

  function BegunApplyTables(db: Database, i: nat, before: Meta): Database
    requires InState(db, i, Claimed)
  {
    var op := db.ledger[i];
    Replace(db, i, WritingRow(op, before, TargetOf(before, op.patch)), Processing)
  }

  function BegunUndoTables(db: Database, i: nat, before: Meta, backup: string): Database
    requires InState(db, i, Claimed) && db.ledger[i].kind.Undo? && db.ledger[i].kind.change < |db.changes|
  {
    var op := db.ledger[i];
    var row := WritingRow(op, before, db.changes[op.kind.change].before).(rollback := Some(backup));
    Replace(db, i, row, Processing)
  }

  // ---------------------------------------------------------------- settling commits

  /** The tables after the commit that ends an operation one way or another: the row, its event,
      its lock and the change it is about are settled together. */
  function AppliedTables(db: Database, i: nat, target: Meta, observed: Meta): Database
    requires InState(db, i, Writing)
  {
    Finish(db, i, SucceededRow(db.ledger[i], target, observed), Published)
      .(changes := SetOwnStatus(db.changes, i, Applied))
  }

  function UndoneTables(db: Database, i: nat, c: nat, target: Meta, observed: Meta): Database
    requires InState(db, i, Writing) && c < |db.changes|
  {
    Finish(db, i, SucceededRow(db.ledger[i], target, observed), Published)
      .(changes := SetStatus(db.changes, c, Undone))
  }

  function RestoredTables(db: Database, i: nat, target: Meta, observed: Option<Meta>): Database
    requires InState(db, i, Writing)
  {
    Finish(db, i, RestoredRow(db.ledger[i], target, observed), Undelivered)
      .(changes := if db.ledger[i].kind == Apply then SetOwnStatus(db.changes, i, RolledBack) else db.changes)
  }

  function AbortedTables(db: Database, i: nat, outcome: OpState, target: Meta, observed: Option<Meta>,
                         mark: Option<ChangeStatus>): Database
    requires InState(db, i, Writing) && (outcome == Unknown || outcome == RestoreFailed)
  {
    Finish(db, i, AbortedRow(db.ledger[i], outcome, target, observed), Undelivered)
      .(changes := if mark.Some? then SetOwnStatus(db.changes, i, mark.value) else db.changes)
  }

  // ---------------------------------------------------------------- steps

  predicate InState(db: Database, i: nat, s: OpState) {
    i < |db.ledger| && i < |db.outbox| && db.ledger[i].state == s
  }

  /** What the API and other people may do at any time. */
  ghost predicate EnvironmentStep(w: World, e: Event, w': World) {
    var db := w.db;
    match e
    case QueueV2(evidence, authorization, g) =>
      && Admissible(db, evidence, authorization, g)
      && w' == w.(db := Reserve(db, evidence, authorization, g))
    case QueueUndo(c) =>
      && c < |db.changes| && KeyFree(db, UndoRow(db, c).key)
      && w' == w.(db := Enqueue(db, UndoRow(db, c)))
    case QueueLegacy(row) =>
      && Fresh(row) && !row.v2 && row.kind == Apply && row.pilot == None && KeyFree(db, row.key)
      && w' == w.(db := Enqueue(db, row))
    case StopPilot(p) =>
      && p in db.pilots
      && w' == w.(db := db.(pilots := db.pilots[p := db.pilots[p].(state := Stopped)]))
    case Acknowledge(i) =>
      && Acknowledgeable(db, i)
      && w' == w.(db := db.(acks := db.acks + {i}))
    case StoreBook(key, book) =>
      && (key in db.books ==> book.calibreId == db.books[key].calibreId)
      && w' == w.(db := db.(books := db.books[key := book]))
    case StorePackage(evidence, pkg) =>
      && evidence !in db.packages
      && w' == w.(db := db.(packages := db.packages[evidence := pkg]))
    case StoreAuthorization(id, authz) =>
      && id !in db.authorizations
      && w' == w.(db := db.(authorizations := db.authorizations[id := authz]))
    case ForeignEdit(key, lib) =>
      && OnlyBook(w.lib, lib, key)
      && w' == w.(lib := lib, log := w.log.(edits := w.log.edits + [key]))
    case _ => false
  }

  /** The writer's steps up to and including the commit that announces a write. */
  ghost predicate PrepareStep(w: World, e: Event, w': World) {
    var db := w.db;
    match e
    case Claim(i, until) =>
      && InState(db, i, Requested) && db.ledger[i].book !in db.locks
      && (forall k :: 0 <= k < i && k < |db.outbox| ==> db.outbox[k] != Pending)
      && w' == w.(db := ClaimedTables(db, i, until),
                  log := Note(w.log, i, TrailOf(w.log, i).(validated := None, readings := [])))
    case Release(i, now) =>
      && InState(db, i, Claimed) && (db.ledger[i].lease.Some? ==> db.ledger[i].lease.value <= now)
      && w' == w.(db := Finish(db, i, db.ledger[i].To(Requested).(lease := None), Pending))
    case Reject(i) =>
      && InState(db, i, Claimed)
      && w' == w.(db := Finish(db, i, db.ledger[i].To(OpState.Failed), Undelivered))
    case Validate(i, runtime) =>
      && InState(db, i, Claimed) && db.ledger[i].book in db.books
      && ValidApply(db, db.ledger[i], db.books[db.ledger[i].book], runtime)
      && w' == w.(log := Note(w.log, i, TrailOf(w.log, i).(validated := Some(db.books[db.ledger[i].book]))))
    case Observe(i) =>
      && i < |db.ledger| && i < |db.outbox| && Active(db.ledger[i].state) && db.ledger[i].book in w.lib.meta
      && w' == w.(log := ObservedLog(w, i))
    case BeginApply(i, read) =>
      && InState(db, i, Claimed)
      && var op := db.ledger[i];
      && op.kind == Apply && TrailOf(w.log, i).validated.Some?
      && op.evidence.Some? && LoadPackage(db, op.evidence.value).Some?
      && SameFiles(read.files, LoadPackage(db, op.evidence.value).value, read.meta)
      && op.expected.Some? && MatchesPatch(read.files, read.meta, op.expected.value)
      && Made(w.log, i, read) && op.book in db.books && db.books[op.book].calibreId != 0
      && w' == w.(db := BegunApplyTables(db, i, read.meta),
                  log := Note(w.log, i, TrailOf(w.log, i).(start := Some(read))))
    case BeginUndo(i, read, backup) =>
      && InState(db, i, Claimed)
      && var op := db.ledger[i];
      && op.kind.Undo? && op.kind.change < |db.changes| && db.changes[op.kind.change].status == Applied
      && op.book in db.books && db.books[op.book].calibreId != 0
      && op.expected.Some? && MatchesPatch(read.files, read.meta, op.expected.value) && Made(w.log, i, read)
      && w' == w.(db := BegunUndoTables(db, i, read.meta, backup),
                  log := Note(w.log, i, TrailOf(w.log, i).(start := Some(read))))
    case _ => false
  }

  /** The writer's steps while an operation is in `writing`: the library may change, and one
      final commit settles the ledger row, the event, the lock and the change together. */
  ghost predicate WriteStep(w: World, e: Event, w': World) {
    var db := w.db;
    match e
    case RecordChange(i, record) =>
      && InState(db, i, Writing) && db.ledger[i].kind == Apply && FindChange(db.changes, i).None?
      && record.op == i && record.book == db.ledger[i].book && Some(record.before) == db.ledger[i].before
      && record.after == db.ledger[i].patch && record.status == PendingApply && record.run == db.ledger[i].run
      && (record.cover.Some? <==> Cover in record.after)
      && record.custom == (if Statement in record.after then map[Edition := EditionText(record.before)] else map[])
      && w' == w.(db := db.(changes := db.changes + [record]))
    case Touch(i, lib) =>
      && InState(db, i, Writing) && HasRestorePoint(db, i)
      && OnlyBook(w.lib, lib, db.ledger[i].book)
      && w' == w.(lib := lib, log := TouchedLog(w.log, i))
    case MarkChange(i, status, reading) =>
      && InState(db, i, Writing) && db.ledger[i].kind == Apply
      && var own := FindChange(db.changes, i);
      && own.Some? && db.changes[own.value].status == PendingApply
      && (status == Applied || status == RolledBack || status == RollbackFailed)
      && (reading.Some? ==> Made(w.log, i, reading.value))
      && (status == RolledBack ==> reading.Some? && Agrees(reading.value.meta, db.changes[own.value].before))
      && w' == w.(db := db.(changes := SetStatus(db.changes, own.value, status)),
                  log := Note(w.log, i, TrailOf(w.log, i).(last := reading)))
    case SucceedApply(i, accepted, read) =>
      && InState(db, i, Writing)
      && var op := db.ledger[i];
      && op.kind == Apply && op.target.Some? && op.evidence.Some? && LoadPackage(db, op.evidence.value).Some?
      && Made(w.log, i, accepted) && Made(w.log, i, read)
      && SameContents(accepted.files, LoadPackage(db, op.evidence.value).value, accepted.meta)
      && MatchesPatch(read.files, read.meta, Align(op.target.value, accepted.meta))
      && w' == w.(db := AppliedTables(db, i, Align(op.target.value, accepted.meta), read.meta),
                  log := Note(w.log, i, TrailOf(w.log, i).(accepted := Some(accepted), last := Some(read))))
    case SucceedUndo(i, read) =>
      && InState(db, i, Writing)
      && var op := db.ledger[i];
      && op.kind.Undo? && op.kind.change < |db.changes| && op.target.Some?
      && Made(w.log, i, read) && MatchesPatch(read.files, read.meta, op.target.value)
      && w' == w.(db := UndoneTables(db, i, op.kind.change, op.target.value, read.meta),
                  log := Note(w.log, i, TrailOf(w.log, i).(last := Some(read))))
    case Restore(i, target, observed, read) =>
      && InState(db, i, Writing)
      && var op := db.ledger[i];
      && op.before.Some? && Made(w.log, i, read) && Agrees(read.meta, op.before.value)
      && w' == w.(db := RestoredTables(db, i, target, observed),
                  log := Note(w.log, i, TrailOf(w.log, i).(last := Some(read))))
    case Abort(i, outcome, target, observed, mark) =>
      && InState(db, i, Writing) && (outcome == Unknown || outcome == RestoreFailed)
      && var op := db.ledger[i];
      && (mark.Some? ==> mark.value == RollbackFailed && op.kind == Apply)
      && (outcome == RestoreFailed && op.kind == Apply && mark.None? ==> Recorded(db, i, RollbackFailed))
      && w' == w.(db := AbortedTables(db, i, outcome, target, observed, mark))
    case _ => false
  }

  ghost predicate Step(w: World, e: Event, w': World) {
    EnvironmentStep(w, e, w') || PrepareStep(w, e, w') || WriteStep(w, e, w')
  }

  ghost predicate Init(w: World) {
    && w.db.ledger == [] && w.db.outbox == [] && w.db.locks == map[] && w.db.changes == []
    && w.db.pilots == map[] && w.db.acks == {}
    && w.log == Log([], map[])
  }

  ghost predicate Next(w: World, w': World) {
    exists e :: Step(w, e, w')
  }

  /** A finite run of the whole system, from empty tables. */
  ghost predicate Run(h: seq<World>)
    decreases |h|, 1
  {
    h != [] && if |h| == 1 then Init(h[0]) else Continues(h)
  }

  /** The last world follows from the run before it by one step. */
  ghost predicate Continues(h: seq<World>)
    requires |h| > 1
    decreases |h|, 0
  {
    Run(h[..|h| - 1]) && Next(h[|h| - 2], h[|h| - 1])
  }

  ghost predicate Reachable(w: World) {
    exists h: seq<World> :: Run(h) && h[|h| - 1] == w
  }
}
