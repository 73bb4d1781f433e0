/** The checks that stand between a request and the library: what the API requires to reserve
    one supervised write, and what the writer requires again before it performs it. */
module Gates {
  import opened Metadata
  import opened Ledger

  /** Runtime facts of the process that asks; `wellFormed` says the pilot id, the release digest
      and the revision pass their text checks. */
  datatype Guard = Guard(
    enabled: bool, ready: bool, wellFormed: bool, pilot: string, root: string, canonicalRoot: bool,
    release: string, revision: string, schema: string, max: int)

  function LoadPackage(db: Database, evidence: string): Option<Package> {
    if evidence in db.packages && db.packages[evidence].sealed then Some(db.packages[evidence]) else None
  }

  predicate SnapshotValid(key: string, book: Book, pkg: Package) {
    && !pkg.remote && !pkg.failed && pkg.shadowed
    && key == pkg.book && book.run == pkg.run && book.calibreId == pkg.calibreId
    && book.current == pkg.current && book.files == pkg.files
  }

  /** The package's patch without the fields the book locks. */
  function PatchFor(pkg: Package, book: Book): Meta {
    pkg.autoPatch - book.fieldLocks.Keys
  }

  predicate Authorized(db: Database, id: string, key: string, book: Book, pkg: Package, patch: Meta) {
    && id in db.authorizations
    && db.authorizations[id] == Authorization(key, book.run, pkg.sha256, patch)
  }

  predicate GuardValid(g: Guard, pkg: Package) {
    && g.enabled && g.ready && g.wellFormed && 1 <= g.max <= 5
    && g.canonicalRoot && pkg.root == Some(g.root)
  }

  // ---------------------------------------------------------------- reserving

  function PilotFor(db: Database, g: Guard): Pilot {
    if g.pilot in db.pilots then db.pilots[g.pilot] else Pilot(g.root, g.release, g.revision, g.max, 0, Open)
  }

  predicate Reservable(db: Database, g: Guard) {
    var stored := PilotFor(db, g);
    && stored.root == g.root && stored.release == g.release && stored.revision == g.revision && stored.max == g.max
    && stored.state == Open
    && stored.reserved == Bound(db.ledger, g.pilot)
    && stored.reserved < stored.max
  }

  /** An undelivered event that does not stand in the way of pilot `p`: a reviewed, safe V2
      failure of another pilot that has been stopped. */
  predicate Cleared(db: Database, i: nat, p: string)
    requires i < |db.ledger| && i < |db.outbox|
  {
    var op := db.ledger[i];
    && i in db.acks && op.v2 && op.state == Failed && op.completed && db.outbox[i] == Undelivered
    && op.pilot.Some? && op.pilot.value in db.pilots && db.pilots[op.pilot.value].state == Stopped
    && op.pilot != Some(p) && op.book !in db.locks
  }

  /** No operation is in progress and every unpublished event is cleared for `p`. */
  predicate Quiescent(db: Database, p: string) {
    && |db.outbox| == |db.ledger|
    && (forall i :: 0 <= i < |db.ledger| ==> Terminal(db.ledger[i].state))
    && (forall i :: 0 <= i < |db.ledger| ==> db.outbox[i] == Published || Cleared(db, i, p))
  }

  /** The package, book and authorization part of a V2 request. */
  predicate Requestable(db: Database, evidence: string, authorization: string, g: Guard) {
    var loaded := LoadPackage(db, evidence);
    && loaded.Some?
    && var pkg := loaded.value;
    && pkg.book in db.books
    && var book := db.books[pkg.book];
    && pkg.tierA && SnapshotValid(pkg.book, book, pkg)
    && Canonical(pkg.autoPatch) && PatchFor(pkg, book) != map[]
    && Authorized(db, authorization, pkg.book, book, pkg, PatchFor(pkg, book))
    && GuardValid(g, pkg)
  }

  function CurrentValue(book: Book, field: Field): Value {
    if field.Statement? then (if Edition in book.current then book.current[Edition] else Get(book.current, Statement))
    else Get(book.current, field)
  }

  /** The row a V2 request creates. */
  function V2Row(db: Database, evidence: string, authorization: string, g: Guard): (op: Op)
    requires Requestable(db, evidence, authorization, g)
    ensures Fresh(op) && op.v2 && op.kind == Apply && op.pilot == Some(g.pilot) && Canonical(op.patch)
    ensures op.book in db.books
  {
    var pkg := db.packages[evidence];
    var book := db.books[pkg.book];
    var patch := PatchFor(pkg, book);
    Op(ApplyV2Key(g.pilot, evidence, patch), Apply, true, pkg.book, book.run, book.calibreId,
       Requested, patch, Some(map field <- patch :: CurrentValue(book, field)),
       None, None, None,
       Some(authorization), Some(pkg.sha256), Some(patch), Some(book.fieldLocks),
       Some(evidence), Some(g.pilot), None, None, false)
  }

  /** When `queue_v2_operation` succeeds. */
  predicate Admissible(db: Database, evidence: string, authorization: string, g: Guard) {
    && Requestable(db, evidence, authorization, g)
    && Reservable(db, g)
    && Quiescent(db, g.pilot)
    && KeyFree(db, V2Row(db, evidence, authorization, g).key)
  }

  function Reserve(db: Database, evidence: string, authorization: string, g: Guard): Database
    requires Admissible(db, evidence, authorization, g)
  {
    var stored := PilotFor(db, g);
    Enqueue(db, V2Row(db, evidence, authorization, g))
      .(pilots := db.pilots[g.pilot := stored.(reserved := stored.reserved + 1)])
  }

  /** The row an undo request creates. */
  function UndoRow(db: Database, c: nat): (op: Op)
    requires c < |db.changes|
    ensures Fresh(op) && op.kind == Undo(c) && op.book == db.changes[c].book && op.pilot == None
  {
    var change := db.changes[c];
    Op(UndoKey(c, change.status), Undo(c), false, change.book, change.run,
       if change.book in db.books then db.books[change.book].calibreId else 0,
       Requested, map[], Some(change.after), None, None, None, None, None, None, None, None, None, None, None, false)
  }

  /** When a failed V2 operation may be acknowledged. */
  predicate Acknowledgeable(db: Database, i: nat) {
    && i < |db.ledger| && i < |db.outbox|
    && var op := db.ledger[i];
    && op.v2 && op.state == Failed && op.completed
    && op.pilot.Some? && op.pilot.value in db.pilots && db.pilots[op.pilot.value].state == Stopped
    && i !in db.acks && db.outbox[i] == Undelivered && op.book !in db.locks
  }

  // ---------------------------------------------------------------- writing

  /** `validate_apply_operation`, repeated by the writer on the rows as they are now. */
  predicate ValidApply(db: Database, op: Op, book: Book, runtime: Option<Guard>) {
    && op.v2 && op.kind == Apply && op.evidence.Some?
    && op.run == book.run && op.calibreId == book.calibreId && op.locksHash == Some(book.fieldLocks)
    && var loaded := LoadPackage(db, op.evidence.value);
    && loaded.Some? && runtime.Some?
    && var pkg := loaded.value; var g := runtime.value;
    && SnapshotValid(op.book, book, pkg)
    && GuardValid(g, pkg)
    && op.pilot == Some(g.pilot) && g.pilot in db.pilots
    && var stored := db.pilots[g.pilot];
    && stored.reserved == Bound(db.ledger, g.pilot) && 1 <= stored.reserved <= stored.max
    && stored.state == Open && stored.root == g.root && stored.release == g.release
    && stored.revision == g.revision && stored.revision == g.schema && stored.max == g.max
    && Canonical(pkg.autoPatch)
    && pkg.tierA && op.verdict == Some(pkg.sha256)
    && op.patch == PatchFor(pkg, book) && op.patchHash == Some(op.patch)
    && op.authorization.Some? && Authorized(db, op.authorization.value, op.book, book, pkg, op.patch)
  }

  // ---------------------------------------------------------------- files

  predicate Distinct(paths: seq<string>) {
    forall j, k :: 0 <= j < k < |paths| ==> paths[j] != paths[k]
  }

  /** The distinct paths of the package's format entries, in first-seen order. */
  function SealedPaths(formats: seq<Packaged>): seq<string> {
    if formats == [] then []
    else
      var earlier := SealedPaths(formats[..|formats| - 1]);
      var path := formats[|formats| - 1].path;
      if path in earlier then earlier else earlier + [path]
  }

  /** The digest the package expects at a path; a later entry for the same path wins. */
  function SealedDigest(formats: seq<Packaged>, path: string): Option<string> {
    if formats == [] then None
    else if formats[|formats| - 1].path == path then Some(formats[|formats| - 1].file.sha256)
    else SealedDigest(formats[..|formats| - 1], path)
  }

  predicate AllPresent(files: Files, paths: seq<string>) {
    forall k :: 0 <= k < |paths| ==> paths[k] in files
  }

  function Contents(files: Files, paths: seq<string>): multiset<File>
    requires AllPresent(files, paths)
  {
    if paths == [] then multiset{}
    else multiset{files[paths[0]]} + Contents(files, paths[1..])
  }

  function Sealed(formats: seq<Packaged>): multiset<File> {
    if formats == [] then multiset{} else multiset{formats[0].file} + Sealed(formats[1..])
  }

  /** Before a write the live files must be the sealed ones, path by path. */
  predicate SameFiles(files: Files, pkg: Package, live: Meta) {
    var paths := FormatPaths(live);
    && Distinct(paths) && SealedPaths(pkg.formats) == pkg.files && paths == pkg.files
    && forall k :: 0 <= k < |paths| ==>
         paths[k] in files && SealedDigest(pkg.formats, paths[k]) == Some(files[paths[k]].sha256)
  }

  /** After a write Calibre may have moved them: the formats and digests must be the same multiset. */
  predicate SameContents(files: Files, pkg: Package, live: Meta) {
    var paths := FormatPaths(live);
    && Distinct(paths) && SealedPaths(pkg.formats) == pkg.files && AllPresent(files, paths)
    && Contents(files, paths) == Sealed(pkg.formats)
  }
}
