/** Startup reconciliation of interrupted operations, and the writer's main loop. */
module Recovery {
  import opened Metadata
  import opened Ledger
  import opened Gates
  import opened Protocol
  import opened Theorems
  import opened Store
  import opened Engine
  import opened Settling
  import opened Writer

  predicate LeaseLive(op: Op, now: nat) {
    op.lease.Some? && now < op.lease.value
  }

  method ReleaseClaim(s: Store, i: nat, now: nat)
    requires s.Valid() && InState(s.db, i, Claimed) && !LeaseLive(s.db.ledger[i], now)
    modifies s
    ensures s.Valid() && old(s.history) <= s.history
    ensures s.db == Finish(old(s.db), i, old(s.db.ledger[i]).To(Requested).(lease := None), Pending)
    ensures OthersKept(old(s.db), s.db, i)
  {
    s.Commit(Finish(s.db, i, s.db.ledger[i].To(Requested).(lease := None), Pending), s.log, Event.Release(i, now));
  }

  // ---------------------------------------------------------------- an interrupted apply

  /** What recovery makes of a reading, before it acts on it. */
  datatype Finding = Shown | Unchanged | Broken | Partial | Lost

  /** The reading shows the aligned target, or the state before, or neither; `Lost` is neither with no
      change to restore from, `Broken` an exception that leaves the comparison. */
  predicate JudgedAs(db: Database, i: nat, read: Read, check: Check, finding: Finding)
    requires i < |db.ledger| && db.ledger[i].before.Some? && db.ledger[i].target.Some?
  {
    var op := db.ledger[i];
    var shown := check.Passed? && MatchesPatch(read.files, read.meta, Align(op.target.value, read.meta));
    var asBefore := check.Passed? && MatchesPatch(read.files, read.meta, op.before.value);
    && (finding.Shown? <==> shown) && (finding.Unchanged? <==> !shown && asBefore)
    && (finding.Broken? <==> check.Escaped?)
    && (finding.Partial? <==> !check.Escaped? && !shown && !asBefore && FindChange(db.changes, i).Some?)
    && (finding.Lost? <==> !check.Escaped? && !shown && !asBefore && FindChange(db.changes, i).None?)
  }

  method Judge(db: Database, i: nat, read: Read, check: Check) returns (finding: Finding)
    requires i < |db.ledger| && db.ledger[i].before.Some? && db.ledger[i].target.Some?
    ensures JudgedAs(db, i, read, check, finding)
  {
    var op := db.ledger[i];
    if check.Escaped? {
      return Broken;
    }
    if check.Passed? {
      if MatchesPatch(read.files, read.meta, Align(op.target.value, read.meta)) {
        return Shown;
      }
      if MatchesPatch(read.files, read.meta, op.before.value) {
        return Unchanged;
      }
    }
    finding := if FindChange(db.changes, i).Some? then Partial else Lost;
  }

  /** Act on a finding. */
  method Resolve(s: Store, i: nat, read: Read, check: Check, finding: Finding, artifacts: bool) returns (out: Outcome)
    requires s.Valid() && InState(s.db, i, Writing) && s.db.ledger[i].kind == Apply
    requires Found(s.Now(), i, read, finding)
    modifies s
    ensures s.Valid() && old(s.history) <= s.history && OthersKept(old(s.db), s.db, i) && i < |s.db.ledger|
    ensures !out.Raised?
    ensures out.Done? ==>
              match finding
              case Shown => InState(s.db, i, Succeeded)
              case Unchanged => InState(s.db, i, Restored)
              case Partial => InState(s.db, i, Restored) || InState(s.db, i, RestoreFailed)
              case _ => InState(s.db, i, Unknown)
  {
    var op := s.db.ledger[i];
    var target := if check.Passed? then Align(op.target.value, read.meta) else op.target.value;
    out := Done;
    match finding {
      case Shown =>
        SettleApplied(s, i, read, read);
      case Unchanged =>
        RestoreChecksAgree(read.files, read.meta, op.before.value);
        SettleRestored(s, i, target, Some(read.meta), Stamp(s.Now(), i, read));
      case Broken =>
        SettleAborted(s, i, Unknown, target, Some(read.meta), Some(RollbackFailed));
      case Lost =>
        SettleAborted(s, i, Unknown, target, Some(read.meta), None);
      case Partial =>
        var change := s.db.changes[FindChange(s.db.changes, i).value];
        var last;
        out, last := RestoreAndSettle(s, i, if artifacts then Components(change) else 0, target, Some(read.meta));
    }
  }

  /** Operation `i` recorded no change, and nobody else has edited its book since the reading it started
      from. */
  predicate Unrecorded(w: World, i: nat)
    requires i < |w.db.ledger|
  {
    FindChange(w.db.changes, i).None? && Unedited(w, i, TrailOf(w.log, i).start)
  }

  /** What a finding over a reading of an interrupted apply stands for. */
  ghost predicate Found(w: World, i: nat, read: Read, finding: Finding)
    requires i < |w.db.ledger|
  {
    var op := w.db.ledger[i];
    && op.before.Some? && op.target.Some? && Noted(w, i, read)
    && (finding.Shown? ==> Confirms(w, i, read, read))
    && (finding.Unchanged? ==> MatchesPatch(read.files, read.meta, op.before.value))
    && (finding.Partial? ==> FindChange(w.db.changes, i).Some?)
  }

  /** A partial state without a restore point is found over verified files of such a book exactly when the
      metadata before does not match itself and the patch was not there already. */
  lemma LostIff(w: World, i: nat, read: Read, check: Check, finding: Finding)
    requires Reachable(w) && InState(w.db, i, Writing) && w.db.ledger[i].kind == Apply
    requires var op := w.db.ledger[i];
             && op.before.Some? && op.target.Some? && Unrecorded(w, i) && check.Passed?
             && op.book in w.lib.meta && read == Read(w.lib.meta[op.book], w.lib.files)
             && JudgedAs(w.db, i, read, check, finding)
    ensures var op := w.db.ledger[i];
            finding.Lost? <==> !Recognisable(op.before.value) && !AlreadyThere(read.files, op.before.value, op.patch)
  {
    StrandedIff(w, i);
  }

  lemma {:induction false} EndIsReachable(h: seq<World>)
    requires Run(h)
    ensures Reachable(h[|h| - 1])
  {
  }

  /** Check the files of a reading and judge it. */
  method Examine(s: Store, i: nat, root: string, read: Read) returns (check: Check, finding: Finding)
    requires InState(s.db, i, Writing) && s.db.ledger[i].kind == Apply
    requires var op := s.db.ledger[i]; op.before.Some? && op.target.Some? && Noted(s.Now(), i, read)
    ensures Found(s.Now(), i, read, finding) && JudgedAs(s.db, i, read, check, finding)
  {
    var escapes: bool, readable: bool := *, *;
    check := VerifyFiles(s.db, s.db.ledger[i], read, root, true, escapes, readable);
    finding := Judge(s.db, i, read, check);
  }

  /** Read an interrupted apply's book and judge it. `verified` says the library answered and the files
      are the sealed ones. */
  method Inspect(s: Store, i: nat, root: string)
    returns (observed: Option<Read>, check: Check, finding: Finding, verified: bool)
    requires s.Valid() && InState(s.db, i, Writing) && s.db.ledger[i].kind == Apply
    requires s.db.ledger[i].before.Some? && s.db.ledger[i].target.Some?
    modifies s
    ensures s.Valid() && old(s.history) <= s.history && s.db == old(s.db) && SameSurroundings(old(s.Now()), s.Now())
    ensures TrailOf(s.log, i).start == old(TrailOf(s.log, i).start)
    ensures observed.Some? ==> Found(s.Now(), i, observed.value, finding)
    ensures verified <==> observed.Some? && check.Passed?
    ensures verified && Unrecorded(s.Now(), i) ==>
              var before := s.db.ledger[i].before.value;
              (finding.Lost? <==> !Recognisable(before) && !AlreadyThere(s.lib.files, before, s.db.ledger[i].patch))
  {
    observed := s.ShowMetadata(i);
    check, finding, verified := Escaped, Broken, false;
    if observed.Some? {
      check, finding := Examine(s, i, root, observed.value);
      verified := check.Passed?;
      if verified && Unrecorded(s.Now(), i) {
        EndIsReachable(s.history);
        LostIff(s.Now(), i, observed.value, check, finding);
      }
    }
  }

  /** Reconcile an apply that was interrupted in `writing`. `stranded` tells whether recovery reports a
      partial state without a restore point although the files are verified. */
  method ReconcileApply(s: Store, i: nat, root: string, artifacts: bool)
    returns (out: Outcome, stranded: bool, verified: bool)
    requires s.Valid() && InState(s.db, i, Writing) && s.db.ledger[i].kind == Apply
    modifies s
    ensures s.Valid() && old(s.history) <= s.history && OthersKept(old(s.db), s.db, i) && i < |s.db.ledger|
    ensures !out.Raised?
    ensures out.Done? ==> Terminal(s.db.ledger[i].state)
    ensures out.Done? && stranded ==> InState(s.db, i, Unknown)
    ensures old(s.db.ledger[i].before).Some?
    ensures verified && old(Unrecorded(s.Now(), i)) ==>
              var before, patch := old(s.db.ledger[i].before.value), old(s.db.ledger[i].patch);
              (stranded <==> !Recognisable(before) && !AlreadyThere(old(s.lib.files), before, patch))
    ensures stranded ==> verified
  {
    RowFacts(s.history, i);
    var observed, check, finding;
    observed, check, finding, verified := Inspect(s, i, root);
    stranded := verified && finding.Lost?;
    var alive := Pause(s, i);
    if !alive {
      return Crashed, stranded, verified;
    }
    ghost var mid := s.db;
    out := Conclude(s, i, observed, check, finding, artifacts);
    OthersKeptTransitive(old(s.db), mid, s.db, i);
  }

  /** Act on a finding, or give up when the library did not answer. */
  method Conclude(s: Store, i: nat, observed: Option<Read>, check: Check, finding: Finding, artifacts: bool)
    returns (out: Outcome)
    requires s.Valid() && InState(s.db, i, Writing) && s.db.ledger[i].kind == Apply && s.db.ledger[i].target.Some?
    requires observed.Some? ==> Found(s.Now(), i, observed.value, finding)
    modifies s
    ensures s.Valid() && old(s.history) <= s.history && OthersKept(old(s.db), s.db, i) && i < |s.db.ledger|
    ensures !out.Raised?
    ensures out.Done? ==> Terminal(s.db.ledger[i].state)
    ensures out.Done? && (observed.None? || finding.Lost? || finding.Broken?) ==> InState(s.db, i, Unknown)
  {
    if observed.None? {
      var op := s.db.ledger[i];
      SettleAborted(s, i, Unknown, op.target.value, op.observed, Some(RollbackFailed));
      out := Done;
    } else {
      out := Resolve(s, i, observed.value, check, finding, artifacts);
    }
  }

  // ---------------------------------------------------------------- an interrupted undo

  /** Reconcile an undo that was interrupted in `writing`; its rollback artifact is always recorded. */
  method ReconcileUndo(s: Store, i: nat, artifacts: bool) returns (out: Outcome, observed: Option<Read>)
    requires s.Valid() && InState(s.db, i, Writing) && s.db.ledger[i].kind.Undo?
    modifies s
    ensures s.Valid() && old(s.history) <= s.history && OthersKept(old(s.db), s.db, i) && i < |s.db.ledger|
    ensures !out.Raised? && old(s.db.ledger[i].target).Some? && old(s.db.ledger[i].before).Some?
    ensures out.Done? ==>
              if observed.None? then InState(s.db, i, Unknown)
              else if MatchesPatch(observed.value.files, observed.value.meta, old(s.db.ledger[i].target.value))
              then InState(s.db, i, Succeeded)
              else InState(s.db, i, Restored) || InState(s.db, i, RestoreFailed)
  {
    RowFacts(s.history, i);
    var op := s.db.ledger[i];
    observed := s.ShowMetadata(i);
    var alive := Pause(s, i);
    if !alive {
      return Crashed, observed;
    }
    ghost var mid := s.db;
    if observed.None? {
      SettleAborted(s, i, Unknown, op.target.value, op.observed, None);
      out := Done;
    } else {
      out := ResolveUndo(s, i, observed.value, artifacts);
    }
    OthersKeptTransitive(old(s.db), mid, s.db, i);
  }

  method ResolveUndo(s: Store, i: nat, read: Read, artifacts: bool) returns (out: Outcome)
    requires s.Valid() && InState(s.db, i, Writing) && HasRestorePoint(s.db, i)
    requires var op := s.db.ledger[i];
             && op.kind.Undo? && op.kind.change < |s.db.changes| && op.before.Some? && op.target.Some?
             && Noted(s.Now(), i, read)
    modifies s
    ensures s.Valid() && old(s.history) <= s.history && OthersKept(old(s.db), s.db, i) && i < |s.db.ledger|
    ensures !out.Raised?
    ensures out.Done? ==>
              if MatchesPatch(read.files, read.meta, old(s.db.ledger[i].target.value)) then InState(s.db, i, Succeeded)
              else if MatchesPatch(read.files, read.meta, old(s.db.ledger[i].before.value))
              then InState(s.db, i, Restored)
              else InState(s.db, i, Restored) || InState(s.db, i, RestoreFailed)
  {
    var op := s.db.ledger[i];
    out := Done;
    if MatchesPatch(read.files, read.meta, op.target.value) {
      SettleUndone(s, i, read);
    } else if MatchesPatch(read.files, read.meta, op.before.value) {
      RestoreChecksAgree(read.files, read.meta, op.before.value);
      SettleRestored(s, i, op.target.value, Some(read.meta), Stamp(s.Now(), i, read));
    } else {
      var last;
      var components := if artifacts then Components(s.db.changes[op.kind.change]) else 0;
      out, last := RestoreAndSettle(s, i, components, op.target.value, Some(read.meta));
    }
  }

  // ---------------------------------------------------------------- all of them

  /** No longer in flight, except a claim whose lease is still live. */
  predicate Reconciled(op: Op, now: nat) {
    !op.state.Writing? && (op.state.Claimed? ==> op.lease.Some? && now < op.lease.value)
  }

  method ReconcileOne(s: Store, i: nat, now: nat, root: string, artifacts: bool) returns (out: Outcome)
    requires s.Valid() && i < |s.db.ledger|
    modifies s
    ensures s.Valid() && old(s.history) <= s.history && i < |s.db.ledger|
    ensures out.Done? ==> Reconciled(s.db.ledger[i], now)
    ensures var op := old(s.db.ledger[i]);
            op.state == Claimed && op.lease.Some? && now < op.lease.value ==> s.db == old(s.db)
    ensures !out.Raised?
    ensures OthersKept(old(s.db), s.db, i)
  {
    RowFacts(s.history, i);
    var op := s.db.ledger[i];
    out := Done;
    if op.state == Claimed {
      if !LeaseLive(op, now) {
        ReleaseClaim(s, i, now);
      }
    } else if op.state == Writing {
      if op.kind.Undo? {
        var observed;
        out, observed := ReconcileUndo(s, i, artifacts);
      } else {
        var stranded, verified;
        out, stranded, verified := ReconcileApply(s, i, root, artifacts);
      }
    }
  }

  predicate AllReconciled(ledger: seq<Op>, now: nat, from: nat, to: nat) {
    forall k :: from <= k < to && k < |ledger| ==> Reconciled(ledger[k], now)
  }

  /** Serving one operation to its end leaves everything reconciled. */
  lemma ServedReconciled(db: Database, db': Database, i: nat, now: nat)
    requires OthersKept(db, db', i) && AllReconciled(db.ledger, now, 0, |db.ledger|)
    requires i < |db'.ledger| && Reconciled(db'.ledger[i], now)
    ensures AllReconciled(db'.ledger, now, 0, |db'.ledger|)
  {
  }

  /** `reconcile_incomplete_operations`: afterwards nothing is in flight except live claims. Others may
      act before every operation. */
  method Reconcile(s: Store, now: nat, root: string, artifacts: bool) returns (out: Outcome)
    requires s.Valid()
    modifies s
    ensures s.Valid() && old(s.history) <= s.history && !out.Raised?
    ensures out.Done? ==> AllReconciled(s.db.ledger, now, 0, |s.db.ledger|)
  {
    var count := |s.db.ledger|;
    var i := 0;
    while i < count
      invariant 0 <= i <= count <= |s.db.ledger|
      invariant s.Valid() && old(s.history) <= s.history
      invariant AllReconciled(s.db.ledger, now, 0, i) && AllReconciled(s.db.ledger, now, count, |s.db.ledger|)
    {
      var alive := s.Yield();
      if !alive {
        return Crashed;
      }
      out := ReconcileOne(s, i, now, root, artifacts);
      if out.Crashed? {
        return;
      }
      i := i + 1;
    }
    out := Done;
  }

  /** Process a claimed operation, turning an escaped exception into a failed or unknown one. */
  method Serve(s: Store, i: nat, runtime: Option<Guard>, root: string) returns (out: Outcome)
    requires s.Valid() && InState(s.db, i, Claimed)
    modifies s
    ensures s.Valid() && old(s.history) <= s.history && OthersKept(old(s.db), s.db, i) && i < |s.db.ledger|
    ensures !out.Raised?
    ensures out.Done? ==> Terminal(s.db.ledger[i].state)
  {
    var alive := Pause(s, i);
    if !alive {
      return Crashed;
    }
    ghost var first := s.db;
    out := Process(s, i, runtime, root);
    OthersKeptTransitive(old(s.db), first, s.db, i);
    if out.Raised? {
      ghost var second := s.db;
      out := FailAmongOthers(s, i);
      OthersKeptTransitive(old(s.db), second, s.db, i);
    }
  }

  /** The exception handler of the loop, with others acting before it commits. */
  method FailAmongOthers(s: Store, i: nat) returns (out: Outcome)
    requires s.Valid() && i < |s.db.ledger| && Active(s.db.ledger[i].state)
    modifies s
    ensures s.Valid() && old(s.history) <= s.history && OthersKept(old(s.db), s.db, i) && i < |s.db.ledger|
    ensures !out.Raised?
    ensures out.Done? ==> InState(s.db, i, if old(s.db.ledger[i].state) == Claimed then OpState.Failed else Unknown)
  {
    RowsMatch(s.history);
    var alive := Pause(s, i);
    if !alive {
      return Crashed;
    }
    ghost var mid := s.db;
    FailOperation(s, i);
    OthersKeptTransitive(old(s.db), mid, s.db, i);
    out := Done;
  }

  /** One round: claim the next operation, if any, and serve it. */
  method Round(s: Store, now: nat, runtime: Option<Guard>, root: string) returns (out: Outcome)
    requires s.Valid() && AllReconciled(s.db.ledger, now, 0, |s.db.ledger|)
    modifies s
    ensures s.Valid() && old(s.history) <= s.history && !out.Raised?
    ensures out.Done? ==> AllReconciled(s.db.ledger, now, 0, |s.db.ledger|)
  {
    out := Done;
    var claimed := ClaimNext(s, now + 60);
    if claimed.Some? {
      ghost var mid := s.db;
      out := Serve(s, claimed.value, runtime, root);
      OthersKeptTransitive(old(s.db), mid, s.db, claimed.value);
      if out.Done? {
        ServedReconciled(old(s.db), s.db, claimed.value, now);
      }
    }
  }

  /** The writer process: reconcile once, then claim and process, with others acting before every round.
      Whenever it is between two operations, nothing is in flight except claims with a live lease; it may
      die anywhere, and whatever it leaves is a run. */
  method RunWriter(s: Store, now: nat, runtime: Option<Guard>, root: string, rounds: nat) returns (out: Outcome)
    requires s.Valid()
    modifies s
    ensures s.Valid() && old(s.history) <= s.history && !out.Raised?
    ensures out.Done? ==> AllReconciled(s.db.ledger, now, 0, |s.db.ledger|)
  {
    out := Reconcile(s, now, root, true);
    var n := 0;
    while n < rounds && out.Done?
      invariant s.Valid() && old(s.history) <= s.history && !out.Raised?
      invariant out.Done? ==> AllReconciled(s.db.ledger, now, 0, |s.db.ledger|)
    {
      var alive := s.Yield();
      if !alive {
        return Crashed;
      }
      out := Round(s, now, runtime, root);
      n := n + 1;
    }
  }
}
