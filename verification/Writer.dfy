/** The dedicated metadata writer: claim, process and fail. Every commit is a step of the protocol, with
    others acting and the process possibly dying in between. */
module Writer {
  import opened Metadata
  import opened Ledger
  import opened Gates
  import opened Protocol
  import opened Shapes
  import opened Invariants
  import opened Preservation
  import opened Store
  import opened Coordinator
  import opened Engine
  import opened Settling

  // ---------------------------------------------------------------- claiming

  predicate FirstPending(outbox: seq<Delivery>, i: nat) {
    i < |outbox| && outbox[i] == Pending && forall k :: 0 <= k < i ==> outbox[k] != Pending
  }

  method FindPending(outbox: seq<Delivery>) returns (i: nat)
    ensures i <= |outbox|
    ensures if i < |outbox| then FirstPending(outbox, i) else Pending !in outbox
  {
    i := 0;
    while i < |outbox| && outbox[i] != Pending
      invariant 0 <= i <= |outbox|
      invariant forall k :: 0 <= k < i ==> outbox[k] != Pending
    {
      i := i + 1;
    }
  }

  /** A pending event always belongs to a requested operation, so no stale event is ever skipped. */
  lemma {:induction false} PendingIsRequested(h: seq<World>, i: nat)
    requires Run(h) && i < |h[|h| - 1].db.outbox| && h[|h| - 1].db.outbox[i] == Pending
    ensures InState(h[|h| - 1].db, i, Requested)
  {
    RunKeeps(h);
    var db := h[|h| - 1].db;
    assert RowOk(db.ledger[i], db.outbox[i]);
  }

  /** Nothing is pending, or the oldest pending operation waits for its book. */
  ghost predicate Blocked(db: Database) {
    forall i: nat :: FirstPending(db.outbox, i) && i < |db.ledger| ==> db.ledger[i].book in db.locks
  }

  lemma FirstIsUnique(outbox: seq<Delivery>, i: nat, j: nat)
    requires FirstPending(outbox, i) && FirstPending(outbox, j)
    ensures i == j
  {
  }

  /** The operation to claim, if any. */
  method Choose(db: Database) returns (chosen: Option<nat>)
    requires |db.outbox| == |db.ledger|
    ensures chosen.None? <==> Blocked(db)
    ensures chosen.Some? ==> FirstPending(db.outbox, chosen.value) && db.ledger[chosen.value].book !in db.locks
  {
    var i := FindPending(db.outbox);
    if i == |db.outbox| {
      return None;
    }
    if db.ledger[i].book in db.locks {
      forall j: nat | FirstPending(db.outbox, j)
        ensures j == i
      {
        FirstIsUnique(db.outbox, i, j);
      }
      return None;
    }
    chosen := Some(i);
  }

  /** `claim_next_operation`: take the oldest pending operation unless its book is locked. An
      expired lock is never stolen. */
  method ClaimNext(s: Store, until: nat) returns (claimed: Option<nat>)
    requires s.Valid()
    modifies s
    ensures s.Valid() && old(s.history) <= s.history
    ensures claimed.None? <==> Blocked(old(s.db))
    ensures claimed.None? ==> s.db == old(s.db)
    ensures claimed.Some? ==>
              && FirstPending(old(s.db.outbox), claimed.value)
              && InState(old(s.db), claimed.value, Requested)
              && old(s.db.ledger[claimed.value]).book !in old(s.db.locks)
              && s.db == ClaimedTables(old(s.db), claimed.value, until)
              && var op := s.db.ledger[claimed.value];
              op.state == Claimed && op.lease == Some(until) && s.db.locks[op.book] == Lock(claimed.value, until)
  {
    RowsMatch(s.history);
    claimed := Choose(s.db);
    if claimed.Some? {
      var i := claimed.value;
      PendingIsRequested(s.history, i);
      s.Commit(ClaimedTables(s.db, i, until), Note(s.log, i, TrailOf(s.log, i).(validated := None, readings := [])),
               Event.Claim(i, until));
    }
  }

  // ---------------------------------------------------------------- file verification

  datatype Check = Passed | Mismatched | Escaped

  /** The sealed package loads, is about this library, and its files are the live ones. */
  predicate FilesVerified(db: Database, op: Op, read: Read, root: string, relocated: bool) {
    && op.evidence.Some? && LoadPackage(db, op.evidence.value).Some?
    && var pkg := LoadPackage(db, op.evidence.value).value;
    && pkg.root == Some(root)
    && if relocated then SameContents(read.files, pkg, read.meta) else SameFiles(read.files, pkg, read.meta)
  }

  /** `_verify_v2_live_files`: the sealed files are there, or a mismatch is reported, or some other
      exception escapes. `readable` says every file could be read, `escapes` that something else failed. */
  method VerifyFiles(db: Database, op: Op, read: Read, root: string, relocated: bool, escapes: bool, readable: bool)
    returns (check: Check)
    ensures check.Escaped? <==> escapes
    ensures check.Passed? <==> !escapes && readable && FilesVerified(db, op, read, root, relocated)
  {
    if escapes {
      return Escaped;
    }
    if op.evidence.None? {
      return Mismatched;
    }
    var loaded := LoadPackage(db, op.evidence.value);
    if loaded.None? || loaded.value.root != Some(root) || !readable {
      return Mismatched;
    }
    var same := if relocated then SameContents(read.files, loaded.value, read.meta)
                else SameFiles(read.files, loaded.value, read.meta);
    check := if same then Passed else Mismatched;
  }

  // ---------------------------------------------------------------- processing an apply

  method BeginApply(s: Store, i: nat, read: Read)
    requires s.Valid() && InState(s.db, i, Claimed)
    requires var op := s.db.ledger[i];
             && op.kind == Apply && TrailOf(s.log, i).validated.Some?
             && op.evidence.Some? && LoadPackage(s.db, op.evidence.value).Some?
             && SameFiles(read.files, LoadPackage(s.db, op.evidence.value).value, read.meta)
             && op.expected.Some? && MatchesPatch(read.files, read.meta, op.expected.value)
             && Noted(s.Now(), i, read) && op.book in s.db.books && s.db.books[op.book].calibreId != 0
    modifies s
    ensures s.Valid() && old(s.history) <= s.history && InState(s.db, i, Writing)
    ensures s.db == BegunApplyTables(old(s.db), i, read.meta) && OthersKept(old(s.db), s.db, i)
    ensures SameSurroundings(old(s.Now()), s.Now()) && Answers(TrailOf(s.log, i).start, read)
  {
    ghost var reading := Stamp(s.Now(), i, read);
    s.Commit(BegunApplyTables(s.db, i, read.meta),
             Note(s.log, i, TrailOf(s.log, i).(start := Some(reading))), Event.BeginApply(i, reading));
  }

  /** Validate against the rows as they are; a failure ends the operation. */
  method ValidateOrReject(s: Store, i: nat, runtime: Option<Guard>) returns (valid: bool)
    requires s.Valid() && InState(s.db, i, Claimed) && s.db.ledger[i].book in s.db.books
    modifies s
    ensures s.Valid() && old(s.history) <= s.history && OthersKept(old(s.db), s.db, i)
    ensures valid <==> ValidApply(old(s.db), old(s.db.ledger[i]), old(s.db.books[s.db.ledger[i].book]), runtime)
    ensures valid ==> s.db == old(s.db) && TrailOf(s.log, i).validated.Some?
    ensures !valid ==> InState(s.db, i, OpState.Failed)
  {
    var book := s.db.books[s.db.ledger[i].book];
    valid := ValidateApply(s.db, s.db.ledger[i], book, runtime);
    if valid {
      s.Commit(s.db, Note(s.log, i, TrailOf(s.log, i).(validated := Some(book))), Event.Validate(i, runtime));
    } else {
      SettleFailed(s, i);
    }
  }

  /** An apply that has just begun. */
  predicate Begun(db: Database, i: nat) {
    && InState(db, i, Writing) && db.ledger[i].kind == Apply && db.ledger[i].before.Some?
    && FindChange(db.changes, i).None?
  }

  /** Commit the intent to write, or fail when the reading is not what was authorized. */
  method BeginOrReject(s: Store, i: nat, read: Read, verified: bool) returns (started: bool)
    requires s.Valid() && InState(s.db, i, Claimed) && s.db.ledger[i].kind == Apply
    requires s.db.ledger[i].book in s.db.books && s.db.books[s.db.ledger[i].book].calibreId != 0
    requires TrailOf(s.log, i).validated.Some? && FindChange(s.db.changes, i).None? && Noted(s.Now(), i, read)
    requires verified ==>
               && s.db.ledger[i].evidence.Some? && LoadPackage(s.db, s.db.ledger[i].evidence.value).Some?
               && SameFiles(read.files, LoadPackage(s.db, s.db.ledger[i].evidence.value).value, read.meta)
    modifies s
    ensures s.Valid() && old(s.history) <= s.history && OthersKept(old(s.db), s.db, i)
    ensures started <==>
            var expected := old(s.db.ledger[i].expected);
            verified && expected.Some? && MatchesPatch(read.files, read.meta, expected.value)
    ensures if started then Begun(s.db, i) else InState(s.db, i, OpState.Failed)
  {
    var expected := s.db.ledger[i].expected;
    started := verified && expected.Some? && MatchesPatch(read.files, read.meta, expected.value);
    if started {
      BeginApply(s, i, read);
    } else {
      SettleFailed(s, i);
    }
  }

  /** Read the live state, compare it with what was authorized, and commit the intent to write. */
  method ReadAndBegin(s: Store, i: nat, root: string) returns (out: Outcome, started: bool)
    requires s.Valid() && InState(s.db, i, Claimed) && s.db.ledger[i].kind == Apply
    requires s.db.ledger[i].book in s.db.books && s.db.books[s.db.ledger[i].book].calibreId != 0
    requires TrailOf(s.log, i).validated.Some? && FindChange(s.db.changes, i).None?
    modifies s
    ensures s.Valid() && old(s.history) <= s.history && OthersKept(old(s.db), s.db, i) && i < |s.db.ledger|
    ensures started ==> out.Done? && Begun(s.db, i)
    ensures out.Done? && !started ==> InState(s.db, i, OpState.Failed)
    ensures out.Raised? ==> InState(s.db, i, Claimed)
  {
    started := false;
    var op := s.db.ledger[i];
    var read := s.ShowMetadata(i);
    if read.None? {
      return Raised, false;
    }
    var escapes: bool, readable: bool := *, *;
    var check := VerifyFiles(s.db, op, read.value, root, false, escapes, readable);
    if check.Escaped? {
      return Raised, false;
    }
    var alive := Pause(s, i);
    if !alive {
      return Crashed, false;
    }
    ghost var mid := s.db;
    started := BeginOrReject(s, i, read.value, check.Passed?);
    out := Done;
    OthersKeptTransitive(old(s.db), mid, s.db, i);
  }

  /** The first half of `process`: validate against the rows as they are, then begin. */
  method StartApply(s: Store, i: nat, runtime: Option<Guard>, root: string) returns (out: Outcome, started: bool)
    requires s.Valid() && InState(s.db, i, Claimed) && s.db.ledger[i].kind == Apply
    requires s.db.ledger[i].book in s.db.books && s.db.books[s.db.ledger[i].book].calibreId != 0
    modifies s
    ensures s.Valid() && old(s.history) <= s.history && OthersKept(old(s.db), s.db, i) && i < |s.db.ledger|
    ensures started ==> out.Done? && Begun(s.db, i)
    ensures out.Done? && !started ==> InState(s.db, i, OpState.Failed)
    ensures out.Raised? ==> InState(s.db, i, Claimed)
  {
    ClaimFacts(s.history, i);
    var valid := ValidateOrReject(s, i, runtime);
    if !valid {
      return Done, false;
    }
    var alive := Pause(s, i);
    if !alive {
      return Crashed, false;
    }
    ghost var mid := s.db;
    out, started := ReadAndBegin(s, i, root);
    OthersKeptTransitive(old(s.db), mid, s.db, i);
  }

  /** The reading after the write whose files are checked. An exception of the library that is an
      operating-system error counts as a mismatch; any other escapes. */
  method ReadAccepted(s: Store, i: nat, root: string) returns (check: Check, accepted: Option<Read>)
    requires s.Valid() && i < |s.db.ledger| && Active(s.db.ledger[i].state)
    modifies s
    ensures s.Valid() && old(s.history) <= s.history && s.db == old(s.db) && SameSurroundings(old(s.Now()), s.Now())
    ensures TrailOf(s.log, i).calls == old(TrailOf(s.log, i).calls)
    ensures accepted.Some? ==> Noted(s.Now(), i, accepted.value)
    ensures check.Passed? ==> accepted.Some? && FilesVerified(s.db, s.db.ledger[i], accepted.value, root, true)
  {
    accepted := s.ShowMetadata(i);
    var escapes: bool, readable: bool := *, *;
    if accepted.Some? {
      check := VerifyFiles(s.db, s.db.ledger[i], accepted.value, root, true, escapes, readable);
    } else {
      check := if escapes then Escaped else Mismatched;
    }
  }

  /** An apply whose files were accepted on the answer `accepted` after its write. */
  ghost predicate Accepted(w: World, i: nat, accepted: Read) {
    && InState(w.db, i, Writing) && w.db.ledger[i].kind == Apply && HasRestorePoint(w.db, i)
    && var op := w.db.ledger[i];
    && op.before.Some? && op.target.Some? && op.evidence.Some? && LoadPackage(w.db, op.evidence.value).Some?
    && SameContents(accepted.files, LoadPackage(w.db, op.evidence.value).value, accepted.meta)
    && Noted(w, i, accepted)
  }

  /** Success when the reading shows the aligned target, otherwise a restore. */
  method SettleCompared(s: Store, i: nat, components: nat, accepted: Read, observed: Read) returns (out: Outcome)
    requires s.Valid() && Accepted(s.Now(), i, accepted) && Noted(s.Now(), i, observed)
    modifies s
    ensures s.Valid() && old(s.history) <= s.history && OthersKept(old(s.db), s.db, i) && i < |s.db.ledger|
    ensures !out.Raised?
    ensures out.Done? ==>
              if MatchesPatch(observed.files, observed.meta, Align(old(s.db.ledger[i].target.value), accepted.meta))
              then InState(s.db, i, Succeeded) && Rests(s.Now(), i, observed)
              else InState(s.db, i, Restored) || InState(s.db, i, RestoreFailed)
    ensures out.Done? && InState(s.db, i, Restored) ==>
              TrailOf(s.log, i).calls == old(TrailOf(s.log, i).calls) + components
  {
    var target := Align(s.db.ledger[i].target.value, accepted.meta);
    if MatchesPatch(observed.files, observed.meta, target) {
      SettleApplied(s, i, accepted, observed);
      out := Done;
    } else {
      var read;
      out, read := RestoreAndSettle(s, i, components, target, Some(observed.meta));
    }
  }

  /** The final reading decides, with others acting before it is acted on. */
  method CompareAndSettle(s: Store, i: nat, components: nat, accepted: Read)
    returns (out: Outcome, observed: Option<Read>)
    requires s.Valid() && Accepted(s.Now(), i, accepted)
    modifies s
    ensures s.Valid() && old(s.history) <= s.history && OthersKept(old(s.db), s.db, i) && i < |s.db.ledger|
    ensures out.Raised? ==> InState(s.db, i, Writing)
    ensures out.Done? ==>
              && observed.Some?
              && if MatchesPatch(observed.value.files, observed.value.meta,
                                 Align(old(s.db.ledger[i].target.value), accepted.meta))
                 then InState(s.db, i, Succeeded) && Rests(s.Now(), i, observed.value)
                 else InState(s.db, i, Restored) || InState(s.db, i, RestoreFailed)
    ensures out.Done? && InState(s.db, i, Restored) ==>
              TrailOf(s.log, i).calls == old(TrailOf(s.log, i).calls) + components
  {
    observed := s.ShowMetadata(i);
    if observed.None? {
      return Raised, observed;
    }
    var alive := Pause(s, i);
    if !alive {
      return Crashed, observed;
    }
    ghost var mid := s.db;
    out := SettleCompared(s, i, components, accepted, observed.value);
    OthersKeptTransitive(old(s.db), mid, s.db, i);
  }

  /** After a write: check the files, then compare with the aligned target; restore when either fails. */
  method VerifyApply(s: Store, i: nat, root: string)
    returns (out: Outcome, check: Check, accepted: Option<Read>, observed: Option<Read>)
    requires s.Valid() && InState(s.db, i, Writing) && s.db.ledger[i].kind == Apply
    requires s.db.ledger[i].before.Some? && s.db.ledger[i].target.Some? && FindChange(s.db.changes, i).Some?
    modifies s
    ensures s.Valid() && old(s.history) <= s.history && OthersKept(old(s.db), s.db, i) && i < |s.db.ledger|
    ensures out.Raised? ==> InState(s.db, i, Writing)
    ensures check.Passed? ==> accepted.Some?
    ensures out.Done? ==>
              if check.Passed? && observed.Some?
                 && MatchesPatch(observed.value.files, observed.value.meta,
                                 Align(old(s.db.ledger[i].target.value), accepted.value.meta))
              then InState(s.db, i, Succeeded) && Rests(s.Now(), i, observed.value)
              else InState(s.db, i, Restored) || InState(s.db, i, RestoreFailed)
    ensures out.Done? && InState(s.db, i, Restored) ==>
              var change := old(s.db.changes[FindChange(s.db.changes, i).value]);
              TrailOf(s.log, i).calls == old(TrailOf(s.log, i).calls)
                                         + 1 + |change.custom| + (if change.cover.Some? then 1 else 0)
  {
    var op := s.db.ledger[i];
    var components := Components(s.db.changes[FindChange(s.db.changes, i).value]);
    observed := None;
    check, accepted := ReadAccepted(s, i, root);
    if check.Escaped? {
      return Raised, check, accepted, observed;
    }
    var alive := Pause(s, i);
    if !alive {
      return Crashed, check, accepted, observed;
    }
    ghost var mid := s.db;
    if check.Mismatched? {
      var read;
      out, read := RestoreAndSettle(s, i, components, op.target.value, op.observed);
    } else {
      out, observed := CompareAndSettle(s, i, components, accepted.value);
    }
    OthersKeptTransitive(old(s.db), mid, s.db, i);
  }

  /** After an engine failure the verdict of its rollback decides how the operation ends; without one it
      ends unknown. */
  method SettleEngineFailure(s: Store, i: nat)
    requires s.Valid() && InState(s.db, i, Writing) && s.db.ledger[i].kind == Apply
    requires s.db.ledger[i].before.Some? && s.db.ledger[i].target.Some?
    requires SoundRollback(s.Now(), i, s.db.ledger[i].before.value)
    modifies s
    ensures s.Valid() && old(s.history) <= s.history && OthersKept(old(s.db), s.db, i)
    ensures SameSurroundings(old(s.Now()), s.Now())
    ensures i < |s.db.ledger| && Terminal(s.db.ledger[i].state)
    ensures InState(s.db, i, Restored) <==> Recorded(old(s.db), i, RolledBack)
    ensures InState(s.db, i, RestoreFailed) <==> Recorded(old(s.db), i, RollbackFailed)
    ensures InState(s.db, i, Unknown) <==> !Judged(old(s.db), i)
  {
    var op := s.db.ledger[i];
    if Recorded(s.db, i, RolledBack) {
      SettleRestored(s, i, op.target.value, op.observed, TrailOf(s.log, i).last.value);
    } else if Recorded(s.db, i, RollbackFailed) {
      SettleAborted(s, i, RestoreFailed, op.target.value, op.observed, None);
    } else {
      SettleAborted(s, i, Unknown, op.target.value, op.observed, None);
    }
  }

  /** An engine failure, with others acting before it is settled. */
  method HandleEngineFailure(s: Store, i: nat) returns (out: Outcome)
    requires s.Valid() && InState(s.db, i, Writing) && s.db.ledger[i].kind == Apply
    requires s.db.ledger[i].before.Some? && s.db.ledger[i].target.Some?
    requires SoundRollback(s.Now(), i, s.db.ledger[i].before.value)
    modifies s
    ensures s.Valid() && old(s.history) <= s.history && OthersKept(old(s.db), s.db, i) && !out.Raised?
    ensures i < |s.db.ledger| && LibraryKept(old(s.Now()), s.Now())
    ensures out.Done? ==> Terminal(s.db.ledger[i].state)
    ensures out.Done? ==> (InState(s.db, i, Unknown) <==> !Judged(old(s.db), i))
  {
    var alive := Pause(s, i);
    if !alive {
      return Crashed;
    }
    ghost var mid := s.Now();
    SettleEngineFailure(s, i);
    OthersKeptTransitive(old(s.db), mid.db, s.db, i);
    LibraryKeptTransitive(old(s.Now()), mid, s.Now());
    out := Done;
  }

  /** The second half of `process`. When it ends unknown the library is as it was: the engine failed before
      its first library call. */
  method CompleteApply(s: Store, i: nat, book: Book, root: string) returns (out: Outcome)
    requires s.Valid() && Begun(s.db, i)
    modifies s
    ensures s.Valid() && old(s.history) <= s.history && OthersKept(old(s.db), s.db, i) && i < |s.db.ledger|
    ensures out.Done? ==> Terminal(s.db.ledger[i].state)
    ensures out.Raised? ==> InState(s.db, i, Writing)
    ensures out.Done? && InState(s.db, i, Unknown) ==> LibraryKept(old(s.Now()), s.Now())
  {
    RowFacts(s.history, i);
    out := ApplyPatch(s, i, book);
    ghost var mid := s.Now();
    if out.Raised? {
      out := HandleEngineFailure(s, i);
      OthersKeptTransitive(old(s.db), mid.db, s.db, i);
      if out.Done? && InState(s.db, i, Unknown) {
        LibraryKeptTransitive(old(s.Now()), mid, s.Now());
      }
    } else if out.Done? {
      var check, accepted, observed;
      out, check, accepted, observed := VerifyApply(s, i, root);
      OthersKeptTransitive(old(s.db), mid.db, s.db, i);
    }
  }

  // ---------------------------------------------------------------- processing an undo

  method BeginUndo(s: Store, i: nat, read: Read, backup: string)
    requires s.Valid() && InState(s.db, i, Claimed)
    requires var op := s.db.ledger[i];
             && op.kind.Undo? && op.kind.change < |s.db.changes| && s.db.changes[op.kind.change].status == Applied
             && op.book in s.db.books && s.db.books[op.book].calibreId != 0
             && op.expected.Some? && MatchesPatch(read.files, read.meta, op.expected.value)
             && Noted(s.Now(), i, read)
    modifies s
    ensures s.Valid() && old(s.history) <= s.history && InState(s.db, i, Writing)
    ensures s.db == BegunUndoTables(old(s.db), i, read.meta, backup) && OthersKept(old(s.db), s.db, i)
    ensures SameSurroundings(old(s.Now()), s.Now()) && Answers(TrailOf(s.log, i).start, read)
  {
    ghost var reading := Stamp(s.Now(), i, read);
    s.Commit(BegunUndoTables(s.db, i, read.meta, backup),
             Note(s.log, i, TrailOf(s.log, i).(start := Some(reading))), Event.BeginUndo(i, reading, backup));
  }

  /** The live metadata must still show the change; the current state is backed up before the intent
      is committed. */
  method ReadAndBeginUndo(s: Store, i: nat) returns (out: Outcome, started: bool)
    requires s.Valid() && InState(s.db, i, Claimed)
    requires var op := s.db.ledger[i];
             && op.kind.Undo? && op.kind.change < |s.db.changes| && s.db.changes[op.kind.change].status == Applied
             && op.book in s.db.books && s.db.books[op.book].calibreId != 0
    modifies s
    ensures s.Valid() && old(s.history) <= s.history && OthersKept(old(s.db), s.db, i) && i < |s.db.ledger|
    ensures started ==> out.Done? && InState(s.db, i, Writing) && s.db.ledger[i].kind.Undo?
    ensures out.Done? && !started ==> InState(s.db, i, OpState.Failed)
    ensures out.Raised? ==> InState(s.db, i, Claimed)
  {
    started := false;
    var op := s.db.ledger[i];
    var read := s.ShowMetadata(i);
    var sealed: bool, exported: bool := *, *;
    var backup: string := *;
    if read.None? || !sealed {
      return Raised, false;
    }
    var alive := Pause(s, i);
    if !alive {
      return Crashed, false;
    }
    ghost var mid := s.db;
    if op.expected.None? || !MatchesPatch(read.value.files, read.value.meta, op.expected.value) {
      SettleFailed(s, i);
      out := Done;
    } else if !exported {
      out := Raised;
    } else {
      BeginUndo(s, i, read.value, backup);
      out, started := Done, true;
    }
    OthersKeptTransitive(old(s.db), mid, s.db, i);
  }

  /** The first half of `_process_undo`: the change must still be applied, to the book the request named. */
  method StartUndo(s: Store, i: nat) returns (out: Outcome, started: bool)
    requires s.Valid() && InState(s.db, i, Claimed) && s.db.ledger[i].kind.Undo?
    modifies s
    ensures s.Valid() && old(s.history) <= s.history && OthersKept(old(s.db), s.db, i) && i < |s.db.ledger|
    ensures started ==> out.Done? && InState(s.db, i, Writing) && s.db.ledger[i].kind.Undo?
    ensures out.Done? && !started ==> InState(s.db, i, OpState.Failed)
    ensures out.Raised? ==> InState(s.db, i, Claimed)
  {
    RowFacts(s.history, i);
    var op := s.db.ledger[i];
    var change := s.db.changes[op.kind.change];
    if op.book !in s.db.books {
      return Raised, false;
    }
    var book := s.db.books[op.book];
    if book.calibreId == 0 || book.calibreId != op.calibreId || book.run != op.run || change.status != Applied {
      SettleFailed(s, i);
      return Done, false;
    }
    out, started := ReadAndBeginUndo(s, i);
  }

  /** Settle an undo after its reading: success when it shows the target, otherwise a restore. */
  method CompareUndo(s: Store, i: nat, components: nat, observed: Read) returns (out: Outcome)
    requires s.Valid() && InState(s.db, i, Writing) && HasRestorePoint(s.db, i)
    requires var op := s.db.ledger[i];
             && op.kind.Undo? && op.kind.change < |s.db.changes| && op.before.Some? && op.target.Some?
             && Noted(s.Now(), i, observed)
    modifies s
    ensures s.Valid() && old(s.history) <= s.history && OthersKept(old(s.db), s.db, i) && i < |s.db.ledger|
    ensures !out.Raised?
    ensures out.Done? ==>
              if MatchesPatch(observed.files, observed.meta, old(s.db.ledger[i].target.value))
              then InState(s.db, i, Succeeded) && Rests(s.Now(), i, observed)
                   && TrailOf(s.log, i).calls == old(TrailOf(s.log, i).calls)
              else InState(s.db, i, Restored) || InState(s.db, i, RestoreFailed)
  {
    var op := s.db.ledger[i];
    var alive := Pause(s, i);
    if !alive {
      return Crashed;
    }
    ghost var mid := s.db;
    if MatchesPatch(observed.files, observed.meta, op.target.value) {
      SettleUndone(s, i, observed);
      out := Done;
    } else {
      var read;
      out, read := RestoreAndSettle(s, i, components, op.target.value, Some(observed.meta));
    }
    OthersKeptTransitive(old(s.db), mid, s.db, i);
  }

  /** The second half: put the recorded metadata back, verify it, or return to the state before the undo. */
  method CompleteUndo(s: Store, i: nat) returns (out: Outcome)
    requires s.Valid() && InState(s.db, i, Writing) && s.db.ledger[i].kind.Undo?
    modifies s
    ensures s.Valid() && old(s.history) <= s.history && OthersKept(old(s.db), s.db, i) && i < |s.db.ledger|
    ensures out.Done? ==>
              InState(s.db, i, Succeeded) || InState(s.db, i, Restored) || InState(s.db, i, RestoreFailed)
    ensures out.Raised? ==> InState(s.db, i, Writing)
    ensures out.Done? && InState(s.db, i, Succeeded) ==>
              && old(s.db.ledger[i].kind.change < |s.db.changes|)
              && var change := old(s.db.changes[s.db.ledger[i].kind.change]);
              TrailOf(s.log, i).calls == old(TrailOf(s.log, i).calls)
                                         + 1 + |change.custom| + (if change.cover.Some? then 1 else 0)
  {
    RowFacts(s.history, i);
    var op := s.db.ledger[i];
    var components := Components(s.db.changes[op.kind.change]);
    out := WriteComponents(s, i, components);
    if !out.Done? {
      return;
    }
    var observed := s.ShowMetadata(i);
    if observed.None? {
      return Raised;
    }
    ghost var mid := s.db;
    out := CompareUndo(s, i, components, observed.value);
    OthersKeptTransitive(old(s.db), mid, s.db, i);
  }

  // ---------------------------------------------------------------- process and fail

  method ProcessUndo(s: Store, i: nat) returns (out: Outcome)
    requires s.Valid() && InState(s.db, i, Claimed) && s.db.ledger[i].kind.Undo?
    modifies s
    ensures s.Valid() && old(s.history) <= s.history && OthersKept(old(s.db), s.db, i) && i < |s.db.ledger|
    ensures out.Done? ==> Terminal(s.db.ledger[i].state)
    ensures out.Raised? ==> Active(s.db.ledger[i].state)
  {
    var started;
    out, started := StartUndo(s, i);
    if started {
      ghost var mid := s.db;
      out := CompleteUndo(s, i);
      OthersKeptTransitive(old(s.db), mid, s.db, i);
    }
  }

  method ProcessApply(s: Store, i: nat, runtime: Option<Guard>, root: string) returns (out: Outcome)
    requires s.Valid() && InState(s.db, i, Claimed) && s.db.ledger[i].kind == Apply
    modifies s
    ensures s.Valid() && old(s.history) <= s.history && OthersKept(old(s.db), s.db, i) && i < |s.db.ledger|
    ensures out.Done? ==> Terminal(s.db.ledger[i].state)
    ensures out.Raised? ==> Active(s.db.ledger[i].state)
  {
    var op := s.db.ledger[i];
    if op.book !in s.db.books || s.db.books[op.book].calibreId == 0 {
      return Raised;
    }
    var book := s.db.books[op.book];
    var started;
    out, started := StartApply(s, i, runtime, root);
    if started {
      ghost var mid := s.db;
      out := CompleteApply(s, i, book, root);
      OthersKeptTransitive(old(s.db), mid, s.db, i);
    }
  }

  /** `MetadataWriter.process`. When it returns the operation is settled; when an exception leaves
      it, the durable row is still claimed or writing; no other operation is touched. */
  method Process(s: Store, i: nat, runtime: Option<Guard>, root: string) returns (out: Outcome)
    requires s.Valid() && i < |s.db.ledger|
    modifies s
    ensures s.Valid() && old(s.history) <= s.history && OthersKept(old(s.db), s.db, i) && i < |s.db.ledger|
    ensures out.Done? ==> Terminal(s.db.ledger[i].state)
    ensures out.Raised? && InState(old(s.db), i, Claimed) ==> Active(s.db.ledger[i].state)
    ensures old(s.db.ledger[i].state) != Claimed ==> out.Raised? && s.db == old(s.db)
  {
    RowFacts(s.history, i);
    if s.db.ledger[i].state != Claimed {
      return Raised;
    }
    if s.db.ledger[i].kind.Undo? {
      out := ProcessUndo(s, i);
    } else {
      out := ProcessApply(s, i, runtime, root);
    }
  }

  /** What `fail_operation` makes of the tables, whatever state it finds. */
  function FailedTables(db: Database, i: nat): Database
    requires i < |db.ledger| && i < |db.outbox|
  {
    var op := db.ledger[i];
    var row := match op.state
      case Claimed => op.To(OpState.Failed)
      case Writing => op.To(Unknown)
      case Verifying => op.To(Unknown)
      case Restoring => op.To(RestoreFailed)
      case _ => op;
    Finish(db, i, row, Undelivered)
  }

  /** It keeps ledger and outbox in agreement exactly when the operation is neither still waiting
      nor already succeeded: called on those it would mark a pending or a delivered event failed. */
  lemma FailKeepsAgreementIff(db: Database, i: nat)
    requires RowsOk(db) && i < |db.ledger|
    ensures RowsOk(FailedTables(db, i)) <==> db.ledger[i].state != Requested && db.ledger[i].state != Succeeded
  {
    var db' := FailedTables(db, i);
    assert RowOk(db.ledger[i], db.outbox[i]);
    assert RowOk(db'.ledger[i], db'.outbox[i]) <==> db.ledger[i].state != Requested && db.ledger[i].state != Succeeded;
  }

  /** `fail_operation` as the writer loop calls it, after `process` raised and rolled back. */
  method FailOperation(s: Store, i: nat)
    requires s.Valid() && i < |s.db.ledger| && Active(s.db.ledger[i].state)
    modifies s
    ensures s.Valid() && old(s.history) <= s.history
    ensures |old(s.db.outbox)| == |old(s.db.ledger)| && s.db == FailedTables(old(s.db), i)
    ensures OthersKept(old(s.db), s.db, i) && Terminal(s.db.ledger[i].state)
  {
    RowFacts(s.history, i);
    var op := s.db.ledger[i];
    if op.state == Claimed {
      SettleFailed(s, i);
    } else {
      SettleAborted(s, i, Unknown, op.target.value, op.observed, None);
    }
  }
}
