/** What the write protocol guarantees, in every reachable world and over every run. */
module Theorems {
  import opened Metadata
  import opened Ledger
  import opened Gates
  import opened Boundary
  import opened Protocol
  import opened Invariants
  import opened Preservation
  import opened Settlement

  lemma ReachableInv(w: World)
    requires Reachable(w)
    ensures Inv(w)
  {
    var h: seq<World> :| Run(h) && h[|h| - 1] == w;
    RunKeeps(h);
  }

  lemma ReachableSettled(w: World)
    requires Reachable(w)
    ensures Settled(w)
  {
    var h: seq<World> :| Run(h) && h[|h| - 1] == w;
    RunSettles(h);
  }

  // ---------------------------------------------------------------- every reachable world

  /** A book's lock exists exactly while one operation holds the book, and it names that operation. */
  lemma MutualExclusion(w: World, book: string)
    requires Reachable(w)
    ensures book in w.db.locks <==> exists i :: 0 <= i < |w.db.ledger| && Holds(w.db.ledger[i], book)
    ensures forall i :: 0 <= i < |w.db.ledger| && Holds(w.db.ledger[i], book)
              ==> book in w.db.locks && w.db.locks[book].op == i
    ensures forall i, j :: 0 <= i < j < |w.db.ledger| ==>
              !(Holds(w.db.ledger[i], book) && Holds(w.db.ledger[j], book))
  {
    ReachableInv(w);
    if book in w.db.locks {
      var i := w.db.locks[book].op;
      assert Holds(w.db.ledger[i], book);
    }
  }

  /** The operation has the book in its hands: it is claimed or writing. */
  predicate Holds(op: Op, book: string) {
    op.book == book && (op.state.Claimed? || op.state.Writing?)
  }

  /** The outbox mirrors the ledger; `verifying`, `restoring` and `cancelled` are never durable;
      completion is recorded exactly in terminal states. */
  lemma LedgerAndOutboxAgree(w: World, i: nat)
    requires Reachable(w) && i < |w.db.ledger|
    ensures |w.db.outbox| == |w.db.ledger|
    ensures var s := w.db.ledger[i].state; var d := w.db.outbox[i];
            && (d == Pending <==> s == Requested)
            && (d == Processing <==> s == Claimed || s == Writing)
            && (d == Published <==> s == Succeeded)
            && (d == Undelivered <==> s == OpState.Failed || s == Restored || s == RestoreFailed || s == Unknown)
            && s != Verifying && s != Restoring && s != Cancelled
            && (w.db.ledger[i].completed <==> s != Requested && s != Claimed && s != Writing)
  {
    ReachableInv(w);
    assert RowOk(w.db.ledger[i], w.db.outbox[i]);
  }

  /** Write-ahead: whenever an interrupted write may have altered its book, the way back is already durable,
      together with the metadata before and the target. Until then the library shows the metadata before,
      unless somebody else has edited the book since it was read. */
  lemma WriteAhead(w: World, i: nat)
    requires Reachable(w) && i < |w.db.ledger| && w.db.ledger[i].state == Writing
    ensures w.db.ledger[i].before.Some? && w.db.ledger[i].target.Some?
    ensures var op := w.db.ledger[i];
            || (op.kind == Apply && exists c :: RecordedFor(w.db, c, i))
            || (op.kind.Undo? && op.rollback.Some?)
            || (var start := TrailOf(w.log, i).start;
                && start.Some? && start.value.meta == op.before.value
                && (!EditedSince(w.log, op.book, start.value) ==>
                      op.book in w.lib.meta && w.lib.meta[op.book] == op.before.value))
  {
    ReachableInv(w);
    assert RowOk(w.db.ledger[i], w.db.outbox[i]) && RowAhead(w, i);
    assert RowEvidence(w.db, w.db.ledger[i], TrailOf(w.log, i));
    var own := FindChange(w.db.changes, i);
    if own.Some? {
      assert ChangeOk(w.db, w.db.changes[own.value]) && RecordedFor(w.db, own.value, i);
    }
  }

  /** Change `c` was recorded by operation `i` and holds the metadata before its write. */
  predicate RecordedFor(db: Database, c: int, i: nat)
    requires i < |db.ledger|
  {
    0 <= c < |db.changes| && db.changes[c].op == i && Some(db.changes[c].before) == db.ledger[i].before
  }

  /** Nobody else has edited the book of operation `i` since a reading, if there is one, was made. */
  predicate Unedited(w: World, i: nat, reading: Option<Reading>)
    requires i < |w.db.ledger|
  {
    reading.Some? ==> !EditedSince(w.log, w.db.ledger[i].book, reading.value)
  }

  /** Nobody else has edited the book since the readings operation `i` was settled on, and no later
      operation on it has written. */
  predicate Undisputed(w: World, i: nat)
    requires i < |w.db.ledger|
  {
    Unedited(w, i, TrailOf(w.log, i).last) && Unedited(w, i, TrailOf(w.log, i).accepted) && LastWord(w.db, i)
  }

  /** Consequently a reader that finds an apply without a change, on a book nobody else has edited since the
      apply read it, sees the metadata before the write. It takes it neither for the target nor for the
      state before, and so reports a partial state without a restore point, exactly when that metadata does
      not match itself and the patch was not there already. */
  lemma StrandedIff(w: World, i: nat)
    requires Reachable(w) && i < |w.db.ledger| && w.db.ledger[i].state == Writing && w.db.ledger[i].kind == Apply
    requires FindChange(w.db.changes, i).None? && Unedited(w, i, TrailOf(w.log, i).start)
    ensures var op := w.db.ledger[i];
            && op.before.Some? && op.target.Some? && op.book in w.lib.meta
            && var live, before := w.lib.meta[op.book], op.before.value;
            && live == before
            && (!MatchesPatch(w.lib.files, live, Align(op.target.value, live))
                && !MatchesPatch(w.lib.files, live, before)
                <==> !Recognisable(before) && !AlreadyThere(w.lib.files, before, op.patch))
  {
    WriteAhead(w, i);
    WrittenIsJustified(w, i);
    var op := w.db.ledger[i];
    MatchesItselfIff(w.lib.files, op.before.value);
    UntouchedShowsTargetIff(w.lib.files, op.before.value, op.patch);
  }

  /** The library shows the last reading made for a succeeded or restored operation until somebody else
      edits the book or a later operation writes it, whatever was edited before and whatever happens to
      other books; likewise the reading whose files were accepted. */
  lemma LibraryShowsLastReading(w: World, i: nat)
    requires Reachable(w) && i < |w.db.ledger| && LastWord(w.db, i)
    requires w.db.ledger[i].state == Succeeded || w.db.ledger[i].state == Restored
    ensures var op := w.db.ledger[i]; var t := TrailOf(w.log, i);
            && t.last.Some?
            && (Unedited(w, i, t.last) ==> op.book in w.lib.meta && w.lib.meta[op.book] == t.last.value.meta)
            && (op.kind == Apply && op.state == Succeeded ==>
                  && t.accepted.Some?
                  && (Unedited(w, i, t.accepted) ==>
                        op.book in w.lib.meta && w.lib.meta[op.book] == t.accepted.value.meta))
  {
    ReachableSettled(w);
    assert RowLive(w, i);
  }

  /** What a snapshot shows at a field; a missing field reads as null. */
  function At(m: Meta, field: Field): Value {
    if field in m then m[field] else Null
  }

  /** Field by field: the patch is there, a patched cover by its digest, and every other recorded field is what
      it was, except formats, path and last_modified; `#edition` and a cover that is not an artifact are among
      them unless the patch says otherwise. */
  predicate PatchedAndKept(files: Files, seen: Meta, before: Meta, patch: Meta) {
    && (forall field <- patch :: field.Statement? || field.Cover? || At(seen, field) == patch[field])
    && (Cover in patch && !patch[Cover].Artifact? ==> At(seen, Cover) == patch[Cover])
    && (Cover in patch && patch[Cover].Artifact? ==>
          Cover in seen && seen[Cover].Text? && seen[Cover].text in files
          && files[seen[Cover].text].sha256 == patch[Cover].sha256)
    && (forall field <- before ::
          || field in patch || field.Formats? || field.Path? || field.Modified?
          || field.Cover? || field.Statement? || field.Edition?
          || At(seen, field) == before[field])
    && (Edition in before && Statement !in patch ==> At(seen, Edition) == before[Edition])
    && (Cover in before && Cover !in patch && !before[Cover].Artifact? ==> At(seen, Cover) == before[Cover])
  }

  lemma PatchedAndFramed(files: Files, seen: Meta, before: Meta, patch: Meta, live: Meta)
    requires Canonical(patch) && MatchesPatch(files, seen, patch) && Framed(files, seen, before, patch, live)
    ensures PatchedAndKept(files, seen, before, patch)
  {
    MatchesPatchIff(files, seen, patch);
    FramedMeans(files, seen, before, patch, live);
    CanonicalIff(patch);
    assert Edition !in patch.Keys && Modified !in patch.Keys;
  }

  /** The files a reading lists, each once, are as many of each format and digest as the package seals. */
  predicate FilesAsSealed(files: Files, seen: Meta, pkg: Package) {
    var paths := if Formats in seen && seen[Formats].Json? then seen[Formats].paths else [];
    && (forall j, k :: 0 <= j < k < |paths| ==> paths[j] != paths[k])
    && (forall k :: 0 <= k < |paths| ==> paths[k] in files)
    && multiset(FilesAt(files, paths)) == multiset(SealedFiles(pkg.formats))
  }

  /** A succeeded apply showed its patch, left every other recorded field as it was, and ran over files
      whose formats and digests are exactly those of the sealed package. */
  lemma VerifiedWrite(w: World, i: nat)
    requires Reachable(w) && i < |w.db.ledger| && w.db.ledger[i].kind == Apply && w.db.ledger[i].state == Succeeded
    ensures var op := w.db.ledger[i]; var t := TrailOf(w.log, i);
            && op.before.Some? && op.evidence.Some? && LoadPackage(w.db, op.evidence.value).Some?
            && t.last.Some? && t.accepted.Some? && op.observed == Some(t.last.value.meta)
            && MatchesPatch(t.last.value.files, t.last.value.meta, op.patch)
            && Framed(t.last.value.files, t.last.value.meta, op.before.value, op.patch, t.accepted.value.meta)
            && PatchedAndKept(t.last.value.files, t.last.value.meta, op.before.value, op.patch)
            && SameContents(t.accepted.value.files, LoadPackage(w.db, op.evidence.value).value, t.accepted.value.meta)
            && FilesAsSealed(t.accepted.value.files, t.accepted.value.meta, w.db.packages[op.evidence.value])
  {
    ReachableInv(w);
    var op := w.db.ledger[i];
    var t := TrailOf(w.log, i);
    assert RowEvidence(w.db, op, t);
    var files, seen, before := t.last.value.files, t.last.value.meta, op.before.value;
    VerifiedIffPatchedAndFramed(files, seen, before, op.patch, t.accepted.value.meta);
    PatchedAndFramed(files, seen, before, op.patch, t.accepted.value.meta);
    SameContentsIff(t.accepted.value.files, w.db.packages[op.evidence.value], t.accepted.value.meta);
  }

  /** So, until somebody else edits the book or a later operation writes it, its live metadata carries the
      patch, and every other recorded field outside formats, path, last_modified and a patched edition is
      what it was before; the format paths it lists were verified to hold the sealed files. */
  lemma SuccessFrame(w: World, i: nat)
    requires Reachable(w) && i < |w.db.ledger| && w.db.ledger[i].kind == Apply && w.db.ledger[i].state == Succeeded
    requires Undisputed(w, i)
    ensures var op := w.db.ledger[i]; var t := TrailOf(w.log, i);
            && op.book in w.lib.meta && op.before.Some? && t.last.Some? && t.accepted.Some?
            && op.evidence.Some? && LoadPackage(w.db, op.evidence.value).Some?
            && var live := w.lib.meta[op.book];
            && op.observed == Some(live)
            && MatchesPatch(t.last.value.files, live, op.patch)
            && Framed(t.last.value.files, live, op.before.value, op.patch, live)
            && PatchedAndKept(t.last.value.files, live, op.before.value, op.patch)
            && SameContents(t.accepted.value.files, LoadPackage(w.db, op.evidence.value).value, live)
            && FilesAsSealed(t.accepted.value.files, live, w.db.packages[op.evidence.value])
  {
    VerifiedWrite(w, i);
    LibraryShowsLastReading(w, i);
  }

  /** An apply over incoherent edition fields that it does not patch can never be verified. */
  lemma IncoherentNeverSucceeds(w: World, i: nat)
    requires Reachable(w) && i < |w.db.ledger| && w.db.ledger[i].kind == Apply && w.db.ledger[i].before.Some?
    requires !EditionCoherent(w.db.ledger[i].before.value) && Statement !in w.db.ledger[i].patch
    ensures w.db.ledger[i].state != Succeeded
  {
    var op := w.db.ledger[i];
    var t := TrailOf(w.log, i);
    if op.state == Succeeded {
      WrittenIsJustified(w, i);
      VerifiedWrite(w, i);
      IncoherentUnframed(t.last.value.files, t.last.value.meta, op.before.value, op.patch, t.accepted.value.meta);
    }
  }

  lemma AgreesIff(observed: Meta, expected: Meta)
    ensures Agrees(observed, expected) <==>
            forall field <- expected ::
              || field.Cover? || field.Edition? || field.Statement? || field.Modified?
              || At(observed, field) == expected[field]
  {
    if Agrees(observed, expected) {
      forall field <- expected
        ensures || field.Cover? || field.Edition? || field.Statement? || field.Modified?
                || At(observed, field) == expected[field]
      {
        assert field.Cover? || field.Edition? || field.Statement? || field.Modified?
               || Get(observed, field) == expected[field];
      }
    }
  }

  /** However an operation came to be restored, the last reading made for it agrees with the metadata
      recorded before, on every field outside cover, edition and last_modified; and so does the live
      metadata, until somebody else edits the book or a later operation writes it. */
  lemma RestoreSoundness(w: World, i: nat)
    requires Reachable(w) && i < |w.db.ledger| && w.db.ledger[i].state == Restored
    ensures var op := w.db.ledger[i]; var t := TrailOf(w.log, i);
            && op.before.Some? && t.last.Some?
            && (forall field <- op.before.value ::
                  || field.Cover? || field.Edition? || field.Statement? || field.Modified?
                  || At(t.last.value.meta, field) == op.before.value[field])
            && (Undisputed(w, i) ==>
                  && op.book in w.lib.meta
                  && forall field <- op.before.value ::
                       || field.Cover? || field.Edition? || field.Statement? || field.Modified?
                       || At(w.lib.meta[op.book], field) == op.before.value[field])
  {
    ReachableInv(w);
    assert RowEvidence(w.db, w.db.ledger[i], TrailOf(w.log, i));
    AgreesIff(TrailOf(w.log, i).last.value.meta, w.db.ledger[i].before.value);
    if Undisputed(w, i) {
      LibraryShowsLastReading(w, i);
    }
  }

  /** A change is successfully undone at most once, whatever undo requests were queued for it. */
  lemma UndoneAtMostOnce(w: World, i: nat, j: nat)
    requires Reachable(w) && i < |w.db.ledger| && j < |w.db.ledger|
    requires w.db.ledger[i].kind.Undo? && w.db.ledger[i].kind == w.db.ledger[j].kind
    requires w.db.ledger[i].state == Succeeded && w.db.ledger[j].state == Succeeded
    ensures i == j
  {
    ReachableInv(w);
  }

  /** Field by field: everything recorded is shown again, except last_modified and the edition text; a cover given
      as an artifact by its digest. */
  predicate ShowsAgain(files: Files, seen: Meta, recorded: Meta) {
    && (forall field <- recorded ::
          || field.Modified? || field.Statement? || (field.Cover? && recorded[field].Artifact?)
          || At(seen, field) == recorded[field])
    && (Cover in recorded && recorded[Cover].Artifact? ==>
          Cover in seen && seen[Cover].Text? && seen[Cover].text in files
          && files[seen[Cover].text].sha256 == recorded[Cover].sha256)
  }

  /** A succeeded undo showed the metadata its apply recorded before writing, and the live metadata
      matches it until somebody else edits the book or a later operation writes it. */
  lemma UndoReturnsToBefore(w: World, i: nat)
    requires Reachable(w) && i < |w.db.ledger| && w.db.ledger[i].kind.Undo? && w.db.ledger[i].state == Succeeded
    ensures var c := w.db.ledger[i].kind.change; var t := TrailOf(w.log, i);
            && c < |w.db.changes| && w.db.changes[c].status == Undone && w.db.changes[c].op < |w.db.ledger|
            && var apply := w.db.ledger[w.db.changes[c].op];
            && apply.kind == Apply && apply.book == w.db.ledger[i].book && Terminal(apply.state) && apply.before.Some?
            && t.last.Some? && MatchesPatch(t.last.value.files, t.last.value.meta, apply.before.value)
            && ShowsAgain(t.last.value.files, t.last.value.meta, apply.before.value)
            && (Undisputed(w, i) ==>
                  && apply.book in w.lib.meta && w.lib.meta[apply.book] == t.last.value.meta
                  && MatchesPatch(t.last.value.files, w.lib.meta[apply.book], apply.before.value))
  {
    ReachableInv(w);
    assert UndoOk(w.db, i) && RowEvidence(w.db, w.db.ledger[i], TrailOf(w.log, i));
    assert ChangeOk(w.db, w.db.changes[w.db.ledger[i].kind.change]);
    var c, t := w.db.ledger[i].kind.change, TrailOf(w.log, i);
    MatchesPatchIff(t.last.value.files, t.last.value.meta, w.db.changes[c].before);
    if Undisputed(w, i) {
      LibraryShowsLastReading(w, i);
    }
  }

  /** The budget of a pilot is the number of its operations, at most its limit, at most five. */
  lemma PilotBudget(w: World, p: string)
    requires Reachable(w) && p in w.db.pilots
    ensures var bound := set i: nat | i < |w.db.ledger| && w.db.ledger[i].pilot == Some(p);
            w.db.pilots[p].reserved == |bound| <= w.db.pilots[p].max <= 5
  {
    ReachableInv(w);
    assert PilotOk(w.db, p);
    BoundCounts(w.db.ledger, p);
  }

  /** In creation order a pilot's operations all succeeded, except possibly the last one. */
  lemma PilotPrefix(w: World, i: nat, j: nat)
    requires Reachable(w) && i < j < |w.db.ledger|
    requires w.db.ledger[i].pilot.Some? && w.db.ledger[i].pilot == w.db.ledger[j].pilot
    ensures w.db.ledger[i].state == Succeeded
  {
    ReachableInv(w);
  }

  /** Whatever was queued or changed since, an apply that entered `writing` carries exactly the sealed patch less
      the locks of the book row it was validated against; a stored authorization was given for that book, run,
      package and patch; and the book row was the sealed snapshot. */
  lemma AuthorizedWrite(w: World, i: nat)
    requires Reachable(w) && i < |w.db.ledger| && w.db.ledger[i].kind == Apply && Written(w.db.ledger[i].state)
    ensures var op, t := w.db.ledger[i], TrailOf(w.log, i);
            && t.validated.Some? && t.start.Some?
            && op.evidence.Some? && op.evidence.value in w.db.packages
            && var pkg, book := w.db.packages[op.evidence.value], t.validated.value;
            && pkg.sealed && pkg.tierA && !pkg.remote && !pkg.failed && pkg.shadowed
            && pkg.book == op.book && pkg.run == op.run == book.run && pkg.calibreId == op.calibreId == book.calibreId
            && pkg.current == book.current && pkg.files == book.files && op.locksHash == Some(book.fieldLocks)
            && op.patch.Keys <= {Title, Authors, Identifiers, Languages, Publisher, Pubdate, Series, SeriesIndex,
                                 Statement, Cover}
            && (forall field: Field :: field in op.patch <==> field in pkg.autoPatch && field !in book.fieldLocks)
            && (forall field <- op.patch :: op.patch[field] == pkg.autoPatch[field])
            && op.authorization.Some? && op.authorization.value in w.db.authorizations
            && var granted := w.db.authorizations[op.authorization.value];
            && granted.book == op.book && granted.run == op.run && granted.verdict == pkg.sha256
            && granted.patch == op.patch
  {
    var op, t := w.db.ledger[i], TrailOf(w.log, i);
    WrittenIsJustified(w, i);
    PatchForIff(w.db.packages[op.evidence.value], t.validated.value, op.patch);
    CanonicalIff(op.patch);
  }

  lemma WrittenIsJustified(w: World, i: nat)
    requires Reachable(w) && i < |w.db.ledger| && w.db.ledger[i].kind == Apply && Written(w.db.ledger[i].state)
    ensures var t := TrailOf(w.log, i);
            && t.validated.Some? && Justified(w.db, w.db.ledger[i], t.validated.value)
            && t.start.Some? && Started(w.db, w.db.ledger[i], t.start.value)
  {
    ReachableInv(w);
    assert RowEvidence(w.db, w.db.ledger[i], TrailOf(w.log, i));
  }

  /** And its write started on the sealed files: the paths the library listed were the package's, in their order,
      and every file had the digest of the package's last entry for its path. */
  lemma StartedOnSealedFiles(w: World, i: nat)
    requires Reachable(w) && i < |w.db.ledger| && w.db.ledger[i].kind == Apply && Written(w.db.ledger[i].state)
    ensures var op, t := w.db.ledger[i], TrailOf(w.log, i);
            && t.start.Some? && op.before == Some(t.start.value.meta)
            && op.evidence.Some? && op.evidence.value in w.db.packages
            && var pkg, start := w.db.packages[op.evidence.value], t.start.value;
            && pkg.files ==
               (if Formats in start.meta && start.meta[Formats].Json? then start.meta[Formats].paths else [])
            && forall k :: 0 <= k < |pkg.files| ==>
                 && pkg.files[k] in start.files
                 && exists j: nat :: LastEntry(pkg.formats, pkg.files[k], j)
                                     && pkg.formats[j].file.sha256 == start.files[pkg.files[k]].sha256
  {
    WrittenIsJustified(w, i);
    var op, start := w.db.ledger[i], TrailOf(w.log, i).start.value;
    SameFilesIff(start.files, w.db.packages[op.evidence.value], start.meta);
  }

  /** The world with a lock stored on one field of a book. */
  function WithLock(w: World, key: string, field: Field, value: Value): World
    requires key in w.db.books
  {
    var book := w.db.books[key].(fieldLocks := w.db.books[key].fieldLocks[field := value]);
    w.(db := w.db.(books := w.db.books[key := book]))
  }

  lemma LockCanBeStored(w: World, key: string, field: Field, value: Value)
    requires key in w.db.books
    ensures var locked := WithLock(w, key, field, value);
            Step(w, Event.StoreBook(key, locked.db.books[key]), locked)
  {
    var locked := WithLock(w, key, field, value);
    assert EnvironmentStep(w, Event.StoreBook(key, locked.db.books[key]), locked);
  }

  /** The locks that count are those of the validation: from every world in which an apply may begin,
      a lock stored on a field it patches goes unnoticed, because the book row is not read again. */
  lemma LateLockGoesUnnoticed(w: World, i: nat, reading: Reading, began: World, field: Field, value: Value)
    requires PrepareStep(w, Event.BeginApply(i, reading), began) && field in w.db.ledger[i].patch
    ensures var key := w.db.ledger[i].book;
            var locked, after := WithLock(w, key, field, value), WithLock(began, key, field, value);
            && Step(w, Event.StoreBook(key, locked.db.books[key]), locked)
            && Step(locked, Event.BeginApply(i, reading), after)
            && InState(after.db, i, Writing)
            && field in after.db.ledger[i].patch && field in after.db.books[key].fieldLocks
  {
    LockCanBeStored(w, w.db.ledger[i].book, field, value);
    LockedCanBegin(w, i, reading, began, field, value);
  }

  lemma LockedCanBegin(w: World, i: nat, reading: Reading, began: World, field: Field, value: Value)
    requires PrepareStep(w, Event.BeginApply(i, reading), began)
    ensures var key := w.db.ledger[i].book;
            var locked, after := WithLock(w, key, field, value), WithLock(began, key, field, value);
            Step(locked, Event.BeginApply(i, reading), after)
  {
    var key := w.db.ledger[i].book;
    var locked, after := WithLock(w, key, field, value), WithLock(began, key, field, value);
    assert PrepareStep(locked, Event.BeginApply(i, reading), after);
  }

  /** So at the commit that announces the write, the patch is the sealed one less the locks of that
      moment exactly when no lock on a sealed field was added or lifted since the validation. */
  lemma PatchIsCurrentIff(w: World, i: nat, reading: Reading, began: World)
    requires Reachable(w) && PrepareStep(w, Event.BeginApply(i, reading), began)
    ensures var op := began.db.ledger[i];
            var seen := TrailOf(w.log, i).validated.value;
            var now := began.db.books[op.book];
            && LoadPackage(began.db, op.evidence.value).Some?
            && var pkg := LoadPackage(began.db, op.evidence.value).value;
            && ((forall field: Field :: field in op.patch <==> field in pkg.autoPatch && field !in now.fieldLocks) <==>
                 forall field <- pkg.autoPatch :: field in now.fieldLocks <==> field in seen.fieldLocks)
            && forall field <- op.patch :: field in pkg.autoPatch && op.patch[field] == pkg.autoPatch[field]
  {
    ReachableInv(w);
    assert RowEvidence(w.db, w.db.ledger[i], TrailOf(w.log, i));
    var op := w.db.ledger[i];
    PatchForIff(LoadPackage(w.db, op.evidence.value).value, TrailOf(w.log, i).validated.value, op.patch);
  }

  /** The queue's gate, read off the joined tables, says exactly this: every operation succeeded, or is
      an acknowledged one of another pilot. */
  lemma GateOpenIff(w: World, p: string)
    requires Reachable(w)
    ensures Quiescent(w.db, p) <==> forall i :: 0 <= i < |w.db.ledger| ==> Resolved(w.db, i, p)
  {
    ReachableInv(w);
    ReachableSettled(w);
    if Quiescent(w.db, p) {
      GateResolves(w.db, p);
    }
    if forall i :: 0 <= i < |w.db.ledger| ==> Resolved(w.db, i, p) {
      ResolvedOpensGate(w.db, p);
    }
  }

  predicate Resolved(db: Database, i: nat, p: string)
    requires i < |db.ledger|
  {
    db.ledger[i].state == Succeeded || (i in db.acks && db.ledger[i].pilot != Some(p))
  }

  lemma GateResolves(db: Database, p: string)
    requires RowsOk(db) && Quiescent(db, p)
    ensures forall i :: 0 <= i < |db.ledger| ==> Resolved(db, i, p)
  {
    forall i | 0 <= i < |db.ledger|
      ensures Resolved(db, i, p)
    {
      assert RowOk(db.ledger[i], db.outbox[i]);
    }
  }

  lemma ResolvedOpensGate(db: Database, p: string)
    requires RowsOk(db) && LocksOk(db) && AcksOk(db) && forall i :: 0 <= i < |db.ledger| ==> Resolved(db, i, p)
    ensures Quiescent(db, p)
  {
    forall k | 0 <= k < |db.ledger|
      ensures Terminal(db.ledger[k].state)
    {
      assert Resolved(db, k, p) && (k in db.acks ==> AckOk(db, k));
    }
    forall i | 0 <= i < |db.ledger|
      ensures db.outbox[i] == Published || Cleared(db, i, p)
    {
      assert Resolved(db, i, p) && (i in db.acks ==> AckOk(db, i)) && RowOk(db.ledger[i], db.outbox[i]);
    }
  }

  /** An acknowledged operation is for ever a completed V2 failure of a stopped pilot. */
  lemma AcknowledgedIsSafe(w: World, i: nat)
    requires Reachable(w) && i in w.db.acks
    ensures i < |w.db.ledger|
    ensures var op := w.db.ledger[i];
            && op.state == OpState.Failed && op.v2 && op.completed
            && op.pilot.Some? && op.pilot.value in w.db.pilots && w.db.pilots[op.pilot.value].state == Stopped
  {
    ReachableSettled(w);
    assert AckOk(w.db, i);
  }

  /** Operations of one book are served in the order they were requested: while one waits or is in
      progress, no later one has been claimed. */
  lemma ServedInOrder(w: World, a: nat, b: nat)
    requires Reachable(w) && a < b < |w.db.ledger| && w.db.ledger[a].book == w.db.ledger[b].book
    ensures w.db.ledger[b].state != Requested ==> Terminal(w.db.ledger[a].state)
  {
    ReachableSettled(w);
    assert EarlierSettled(w.db, b);
  }

  /** Every undo names a recorded change of its own book, and the apply that recorded it got as far as
      writing. */
  lemma UndoNamesWrittenChange(w: World, i: nat)
    requires Reachable(w) && i < |w.db.ledger| && w.db.ledger[i].kind.Undo?
    ensures var c := w.db.ledger[i].kind.change;
            && c < |w.db.changes| && w.db.changes[c].op < |w.db.ledger|
            && var apply := w.db.ledger[w.db.changes[c].op];
            && apply.kind == Apply && Written(apply.state) && apply.book == w.db.ledger[i].book
            && apply.before == Some(w.db.changes[c].before)
  {
    ReachableInv(w);
    assert UndoOk(w.db, i) && ChangeOk(w.db, w.db.changes[w.db.ledger[i].kind.change]);
  }
}
