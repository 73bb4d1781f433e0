/** The commits that end an operation: the row, its event, its lock and the change it is about are
    settled together, and what they say about the library rests on readings made since it was touched. */
module Settling {
  import opened Metadata
  import opened Ledger
  import opened Gates
  import opened Protocol
  import opened Store
  import opened Engine

  /** The last reading made for operation `i` is `read`, and the library still shows it unless somebody
      else has edited the book since. */
  ghost predicate Rests(w: World, i: nat, read: Read)
    requires i < |w.db.ledger|
  {
    Answers(TrailOf(w.log, i).last, read) && Shows(w, w.db.ledger[i].book, TrailOf(w.log, i).last.value)
  }

  function LastLog(log: Log, i: nat, last: Reading): Log {
    Note(log, i, TrailOf(log, i).(last := Some(last)))
  }

  /** The settled row records what was to be shown and what was last seen before that was decided. */
  predicate Records(op: Op, target: Meta, observed: Option<Meta>) {
    op.target == Some(target) && op.observed == observed
  }

  method SettleFailed(s: Store, i: nat)
    requires s.Valid() && InState(s.db, i, Claimed)
    modifies s
    ensures s.Valid() && old(s.history) <= s.history && InState(s.db, i, OpState.Failed)
    ensures s.db == Finish(old(s.db), i, old(s.db.ledger[i]).To(OpState.Failed), Undelivered)
    ensures OthersKept(old(s.db), s.db, i)
  {
    s.Commit(Finish(s.db, i, s.db.ledger[i].To(OpState.Failed), Undelivered), s.log, Event.Reject(i));
  }

  lemma RestoredIsStep(w: World, i: nat, target: Meta, observed: Option<Meta>, reading: Reading)
    requires InState(w.db, i, Writing) && w.db.ledger[i].before.Some?
    requires Made(w.log, i, reading) && Agrees(reading.meta, w.db.ledger[i].before.value)
    ensures var db', log' := RestoredTables(w.db, i, target, observed), LastLog(w.log, i, reading);
            && Step(w, Event.Restore(i, target, observed, reading), World(db', w.lib, log'))
            && InState(db', i, Restored) && db'.ledger[i].book == w.db.ledger[i].book && OthersKept(w.db, db', i)
  {
    var db', log' := RestoredTables(w.db, i, target, observed), LastLog(w.log, i, reading);
    assert WriteStep(w, Event.Restore(i, target, observed, reading), World(db', w.lib, log'));
  }

  method SettleRestored(s: Store, i: nat, target: Meta, observed: Option<Meta>, ghost reading: Reading)
    requires s.Valid() && InState(s.db, i, Writing) && s.db.ledger[i].before.Some?
    requires Made(s.log, i, reading) && Agrees(reading.meta, s.db.ledger[i].before.value)
    modifies s
    ensures s.Valid() && old(s.history) <= s.history && InState(s.db, i, Restored)
    ensures s.db == RestoredTables(old(s.db), i, target, observed) && OthersKept(old(s.db), s.db, i)
    ensures Records(s.db.ledger[i], target, observed) && s.db.outbox[i] == Undelivered
    ensures SameSurroundings(old(s.Now()), s.Now()) && Rests(s.Now(), i, Read(reading.meta, reading.files))
    ensures TrailOf(s.log, i) == old(TrailOf(s.log, i)).(last := Some(reading))
  {
    MadeShows(s.history, i, reading);
    RestoredIsStep(s.Now(), i, target, observed, reading);
    s.Commit(RestoredTables(s.db, i, target, observed), LastLog(s.log, i, reading),
             Event.Restore(i, target, observed, reading));
  }

  lemma AbortIsStep(w: World, i: nat, outcome: OpState, target: Meta, observed: Option<Meta>,
                    mark: Option<ChangeStatus>)
    requires InState(w.db, i, Writing) && (outcome == Unknown || outcome == RestoreFailed)
    requires mark.Some? ==> mark.value == RollbackFailed && w.db.ledger[i].kind == Apply
    requires outcome == RestoreFailed && w.db.ledger[i].kind == Apply && mark.None? ==>
               Recorded(w.db, i, RollbackFailed)
    ensures Step(w, Event.Abort(i, outcome, target, observed, mark),
                 World(AbortedTables(w.db, i, outcome, target, observed, mark), w.lib, w.log))
    ensures InState(AbortedTables(w.db, i, outcome, target, observed, mark), i, outcome)
  {
    var db' := AbortedTables(w.db, i, outcome, target, observed, mark);
    assert WriteStep(w, Event.Abort(i, outcome, target, observed, mark), World(db', w.lib, w.log));
  }

  method SettleAborted(s: Store, i: nat, outcome: OpState, target: Meta, observed: Option<Meta>,
                       mark: Option<ChangeStatus>)
    requires s.Valid() && InState(s.db, i, Writing) && (outcome == Unknown || outcome == RestoreFailed)
    requires mark.Some? ==> mark.value == RollbackFailed && s.db.ledger[i].kind == Apply
    requires outcome == RestoreFailed && s.db.ledger[i].kind == Apply && mark.None? ==>
               Recorded(s.db, i, RollbackFailed)
    modifies s
    ensures s.Valid() && old(s.history) <= s.history && InState(s.db, i, outcome)
    ensures s.db == AbortedTables(old(s.db), i, outcome, target, observed, mark)
    ensures Records(s.db.ledger[i], target, observed) && s.db.outbox[i] == Undelivered
    ensures OthersKept(old(s.db), s.db, i) && SameSurroundings(old(s.Now()), s.Now()) && s.log == old(s.log)
  {
    AbortIsStep(s.Now(), i, outcome, target, observed, mark);
    s.Commit(AbortedTables(s.db, i, outcome, target, observed, mark), s.log,
             Event.Abort(i, outcome, target, observed, mark));
  }

  /** Two readings show the sealed files and the aligned target. */
  ghost predicate Confirms(w: World, i: nat, accepted: Read, read: Read)
    requires i < |w.db.ledger|
  {
    var op := w.db.ledger[i];
    && op.kind == Apply && op.target.Some? && op.evidence.Some? && LoadPackage(w.db, op.evidence.value).Some?
    && Noted(w, i, accepted) && Noted(w, i, read)
    && SameContents(accepted.files, LoadPackage(w.db, op.evidence.value).value, accepted.meta)
    && MatchesPatch(read.files, read.meta, Align(op.target.value, accepted.meta))
  }

  function AppliedLog(log: Log, i: nat, accepted: Reading, last: Reading): Log {
    Note(log, i, TrailOf(log, i).(accepted := Some(accepted), last := Some(last)))
  }

  lemma AppliedIsStep(w: World, i: nat, accepted: Reading, last: Reading)
    requires InState(w.db, i, Writing) && Made(w.log, i, accepted) && Made(w.log, i, last)
    requires Confirms(w, i, Read(accepted.meta, accepted.files), Read(last.meta, last.files))
    ensures var db' := AppliedTables(w.db, i, Align(w.db.ledger[i].target.value, accepted.meta), last.meta);
            && Step(w, Event.SucceedApply(i, accepted, last), World(db', w.lib, AppliedLog(w.log, i, accepted, last)))
            && InState(db', i, Succeeded) && db'.ledger[i].book == w.db.ledger[i].book && OthersKept(w.db, db', i)
  {
    var db' := AppliedTables(w.db, i, Align(w.db.ledger[i].target.value, accepted.meta), last.meta);
    assert WriteStep(w, Event.SucceedApply(i, accepted, last), World(db', w.lib, AppliedLog(w.log, i, accepted, last)));
  }

  method SettleApplied(s: Store, i: nat, accepted: Read, read: Read)
    requires s.Valid() && InState(s.db, i, Writing) && Confirms(s.Now(), i, accepted, read)
    modifies s
    ensures s.Valid() && old(s.history) <= s.history && InState(s.db, i, Succeeded)
    ensures s.db == AppliedTables(old(s.db), i, Align(old(s.db.ledger[i].target.value), accepted.meta), read.meta)
    ensures Records(s.db.ledger[i], Align(old(s.db.ledger[i].target.value), accepted.meta), Some(read.meta))
    ensures s.db.outbox[i] == Published
    ensures OthersKept(old(s.db), s.db, i) && SameSurroundings(old(s.Now()), s.Now())
    ensures Answers(TrailOf(s.log, i).accepted, accepted) && Rests(s.Now(), i, read)
  {
    ghost var first, final := Stamp(s.Now(), i, accepted), Stamp(s.Now(), i, read);
    MadeShows(s.history, i, final);
    AppliedIsStep(s.Now(), i, first, final);
    s.Commit(AppliedTables(s.db, i, Align(s.db.ledger[i].target.value, accepted.meta), read.meta),
             AppliedLog(s.log, i, first, final), Event.SucceedApply(i, first, final));
  }

  /** A reading shows the target of an undo. */
  ghost predicate ConfirmsUndo(w: World, i: nat, read: Read)
    requires i < |w.db.ledger|
  {
    var op := w.db.ledger[i];
    && op.kind.Undo? && op.kind.change < |w.db.changes| && op.target.Some?
    && Noted(w, i, read) && MatchesPatch(read.files, read.meta, op.target.value)
  }

  method SettleUndone(s: Store, i: nat, read: Read)
    requires s.Valid() && InState(s.db, i, Writing) && ConfirmsUndo(s.Now(), i, read)
    modifies s
    ensures s.Valid() && old(s.history) <= s.history && InState(s.db, i, Succeeded)
    ensures s.db ==
            UndoneTables(old(s.db), i, old(s.db.ledger[i].kind.change), old(s.db.ledger[i].target.value), read.meta)
    ensures Records(s.db.ledger[i], old(s.db.ledger[i].target.value), Some(read.meta)) && s.db.outbox[i] == Published
    ensures s.db.changes[old(s.db.ledger[i].kind.change)].status == Undone
    ensures TrailOf(s.log, i).calls == old(TrailOf(s.log, i).calls)
    ensures OthersKept(old(s.db), s.db, i) && SameSurroundings(old(s.Now()), s.Now())
    ensures Rests(s.Now(), i, read)
  {
    var op := s.db.ledger[i];
    ghost var reading := Stamp(s.Now(), i, read);
    MadeShows(s.history, i, reading);
    s.Commit(UndoneTables(s.db, i, op.kind.change, op.target.value, read.meta),
             LastLog(s.log, i, reading), Event.SucceedUndo(i, reading));
  }

  // ---------------------------------------------------------------- restoring

  /** Write the components back and read the book; nothing is returned when either fails. */
  method WriteBack(s: Store, i: nat, components: nat) returns (out: Outcome, read: Option<Read>)
    requires s.Valid() && InState(s.db, i, Writing) && HasRestorePoint(s.db, i)
    modifies s
    ensures s.Valid() && old(s.history) <= s.history && !out.Raised?
    ensures Holding(s.Now(), i, old(s.db.ledger[i])) && s.db.changes == old(s.db.changes)
    ensures OthersKept(old(s.db), s.db, i)
    ensures read.Some? ==> components > 0 && Noted(s.Now(), i, read.value)
    ensures read.Some? ==> TrailOf(s.log, i).calls == old(TrailOf(s.log, i).calls) + components
  {
    read := None;
    out := WriteComponents(s, i, components);
    if out.Done? && components > 0 {
      read := s.ShowMetadata(i);
    }
    if !out.Crashed? {
      ghost var mid := s.db;
      var alive := Pause(s, i);
      OthersKeptTransitive(old(s.db), mid, s.db, i);
      out := if alive then Done else Crashed;
    }
  }

  /** Restore the components, read back and compare with the metadata before; anything short of a match
      ends as restore_failed. `components` is zero when the artifacts are unavailable. */
  method RestoreAndSettle(s: Store, i: nat, components: nat, target: Meta, observed: Option<Meta>)
    returns (out: Outcome, read: Option<Read>)
    requires s.Valid() && InState(s.db, i, Writing) && HasRestorePoint(s.db, i) && s.db.ledger[i].before.Some?
    modifies s
    ensures s.Valid() && old(s.history) <= s.history && i < |s.db.ledger| && !out.Raised?
    ensures OthersKept(old(s.db), s.db, i)
    ensures read.Some? ==> Noted(s.Now(), i, read.value)
    ensures out.Done? ==>
              if read.Some? && MatchesPatch(read.value.files, read.value.meta, old(s.db.ledger[i].before.value))
              then InState(s.db, i, Restored) && Rests(s.Now(), i, read.value) && components > 0
                   && TrailOf(s.log, i).calls == old(TrailOf(s.log, i).calls) + components
              else InState(s.db, i, RestoreFailed)
  {
    var op := s.db.ledger[i];
    out, read := WriteBack(s, i, components);
    if out.Crashed? {
      return;
    }
    ghost var mid := s.Now();
    if read.Some? && MatchesPatch(read.value.files, read.value.meta, op.before.value) {
      RestoreChecksAgree(read.value.files, read.value.meta, op.before.value);
      SettleRestored(s, i, target, observed, Stamp(s.Now(), i, read.value));
    } else {
      SettleAborted(s, i, RestoreFailed, target, observed, if op.kind == Apply then Some(RollbackFailed) else None);
    }
    StaysNoted(mid, s.Now(), i);
    OthersKeptTransitive(old(s.db), mid.db, s.db, i);
  }
}
