/** `ApplyEngine.apply_patch`: back up, record the change durably, write, and roll back on failure. */
module Engine {
  import opened Metadata
  import opened Ledger
  import opened Gates
  import opened Protocol
  import opened Shapes
  import opened Invariants
  import opened Preservation
  import opened Store

  /** How a stretch of writer code ends: normally, by an exception, or with the process. */
  datatype Outcome = Done | Raised | Crashed

  /** Row `i` is still the row the writer is working on. */
  ghost predicate Holding(w: World, i: nat, op: Op) {
    i < |w.db.ledger| && i < |w.db.outbox| && w.db.ledger[i] == op
  }

  /** What an operation relies on in tables that others may extend. */
  predicate StillThere(db: Database, db': Database, op: Op) {
    && (op.evidence.Some? && LoadPackage(db, op.evidence.value).Some? ==>
          LoadPackage(db', op.evidence.value) == LoadPackage(db, op.evidence.value))
    && (op.book in db.books ==> op.book in db'.books && db'.books[op.book].calibreId == db.books[op.book].calibreId)
  }

  /** Others act while the writer holds operation `i`; what was read for it stays on record. */
  method Pause(s: Store, i: nat) returns (alive: bool)
    requires s.Valid() && i < |s.db.ledger| && i < |s.db.outbox|
    modifies s
    ensures s.Valid() && old(s.history) <= s.history
    ensures Holding(s.Now(), i, old(s.db.ledger[i])) && s.db.outbox[i] == old(s.db.outbox[i])
    ensures s.db.changes == old(s.db.changes) && s.log.trails == old(s.log.trails)
    ensures OthersKept(old(s.db), s.db, i) && StillThere(old(s.db), s.db, old(s.db.ledger[i]))
    ensures LibraryKept(old(s.Now()), s.Now())
    ensures forall r :: old(Noted(s.Now(), i, r)) ==> Noted(s.Now(), i, r)
  {
    ghost var before := s.Now();
    alive := s.Yield();
    StaysNoted(before, s.Now(), i);
  }

  lemma StaysNoted(w: World, w': World, i: nat)
    requires TrailOf(w'.log, i).readings == TrailOf(w.log, i).readings
    ensures forall r :: Noted(w, i, r) ==> Noted(w', i, r)
  {
    forall r | Noted(w, i, r)
      ensures Noted(w', i, r)
    {
      var reading := Stamp(w, i, r);
      assert Made(w'.log, i, Reading(r.meta, r.files, reading.at));
    }
  }

  /** Of what is recorded beside the tables, at most the readings and the calls of operation `i` are different. */
  ghost predicate TrailsKept(w: World, w': World, i: nat) {
    var t, t' := TrailOf(w.log, i), TrailOf(w'.log, i);
    SameTrails(w, w', i) && t' == t.(readings := t'.readings, calls := t'.calls)
  }

  /** Up to `count` library writes in a row; stops at the first failure. After the first one, no earlier
      reading counts any more. */
  method WriteComponents(s: Store, i: nat, count: nat) returns (out: Outcome)
    requires s.Valid() && InState(s.db, i, Writing) && HasRestorePoint(s.db, i)
    modifies s
    ensures s.Valid() && old(s.history) <= s.history
    ensures Holding(s.Now(), i, old(s.db.ledger[i])) && s.db.changes == old(s.db.changes)
    ensures TrailsKept(old(s.Now()), s.Now(), i) && (count > 0 ==> TrailOf(s.log, i).readings == [])
    ensures out.Done? ==> TrailOf(s.log, i).calls == old(TrailOf(s.log, i).calls) + count
    ensures OthersKept(old(s.db), s.db, i) && StillThere(old(s.db), s.db, old(s.db.ledger[i]))
  {
    var n := 0;
    while n < count
      invariant s.Valid() && old(s.history) <= s.history
      invariant Holding(s.Now(), i, old(s.db.ledger[i])) && s.db.changes == old(s.db.changes)
      invariant TrailsKept(old(s.Now()), s.Now(), i) && (n > 0 ==> TrailOf(s.log, i).readings == [])
      invariant n <= count && TrailOf(s.log, i).calls == old(TrailOf(s.log, i).calls) + n
      invariant OthersKept(old(s.db), s.db, i) && StillThere(old(s.db), s.db, old(s.db.ledger[i]))
    {
      var ok := s.Touch(i);
      var alive := s.Yield();
      if !alive {
        return Crashed;
      }
      if !ok {
        return Raised;
      }
      n := n + 1;
    }
    out := Done;
  }

  /** The change as it is recorded before the first library write. */
  function NewChange(i: nat, op: Op, before: Meta, backup: string, cover: string): Change {
    Change(i, op.book, op.run, before, op.patch, backup, if Cover in op.patch then Some(cover) else None,
           if Statement in op.patch then map[Edition := EditionText(before)] else map[], PendingApply)
  }

  function CoverOf(change: Change): string {
    if change.cover.Some? then change.cover.value else ""
  }

  function Components(change: Change): nat {
    1 + |change.custom| + if change.cover.Some? then 1 else 0
  }

  method RecordChange(s: Store, i: nat, change: Change)
    requires s.Valid() && InState(s.db, i, Writing) && s.db.ledger[i].kind == Apply && FindChange(s.db.changes, i).None?
    requires Some(change.before) == s.db.ledger[i].before
    requires change == NewChange(i, s.db.ledger[i], change.before, change.backup, CoverOf(change))
    modifies s
    ensures s.Valid() && old(s.history) <= s.history
    ensures Holding(s.Now(), i, old(s.db.ledger[i])) && s.db == old(s.db).(changes := old(s.db.changes) + [change])
    ensures FindChange(s.db.changes, i) == Some(|s.db.changes| - 1) && s.lib == old(s.lib) && s.log == old(s.log)
  {
    s.Commit(s.db.(changes := s.db.changes + [change]), s.log, Event.RecordChange(i, change));
  }

  /** The reading on record is this answer of the library. */
  predicate Answers(reading: Option<Reading>, read: Read) {
    reading.Some? && reading.value.meta == read.meta && reading.value.files == read.files
  }

  method MarkChange(s: Store, i: nat, c: nat, status: ChangeStatus, read: Option<Read>)
    requires s.Valid() && InState(s.db, i, Writing) && s.db.ledger[i].kind == Apply
    requires FindChange(s.db.changes, i) == Some(c) && s.db.changes[c].status == PendingApply
    requires status == Applied || status == RolledBack || status == RollbackFailed
    requires read.Some? ==> Noted(s.Now(), i, read.value)
    requires status == RolledBack ==> read.Some? && Agrees(read.value.meta, s.db.changes[c].before)
    modifies s
    ensures s.Valid() && old(s.history) <= s.history
    ensures Holding(s.Now(), i, old(s.db.ledger[i])) && Recorded(s.db, i, status)
    ensures s.db == old(s.db).(changes := SetStatus(old(s.db.changes), c, status))
    ensures if read.Some? then Answers(TrailOf(s.log, i).last, read.value) else TrailOf(s.log, i).last.None?
    ensures SoundRollback(s.Now(), i, old(s.db.changes[c].before)) && SameSurroundings(old(s.Now()), s.Now())
    ensures TrailOf(s.log, i).calls == old(TrailOf(s.log, i).calls)
  {
    ghost var verdict := if read.Some? then Some(Stamp(s.Now(), i, read.value)) else None;
    s.Commit(s.db.(changes := SetStatus(s.db.changes, c, status)),
             Note(s.log, i, TrailOf(s.log, i).(last := verdict)), Event.MarkChange(i, status, verdict));
    MarkedIsOwn(s.history, i, c);
  }

  /** A status change does not change whose the change is. */
  lemma {:induction false} MarkedIsOwn(h: seq<World>, i: nat, c: nat)
    requires Run(h) && c < |h[|h| - 1].db.changes| && h[|h| - 1].db.changes[c].op == i
    ensures FindChange(h[|h| - 1].db.changes, i) == Some(c)
  {
    RunKeeps(h);
    OwnerIsUnique(h[|h| - 1].db, i, c);
  }

  lemma OwnerIsUnique(db: Database, i: nat, c: nat)
    requires ChangesOk(db) && c < |db.changes| && db.changes[c].op == i
    ensures FindChange(db.changes, i) == Some(c)
  {
  }

  /** The library and the record of other people's edits are as they were. */
  ghost predicate SameSurroundings(w: World, w': World) {
    w'.lib == w.lib && w'.log.edits == w.log.edits
  }

  /** A durable verdict of "rolled back" rests on a reading, made since the library was last touched, that
      agrees with the metadata before. */
  ghost predicate SoundRollback(w: World, i: nat, before: Meta) {
    Recorded(w.db, i, RolledBack) ==>
      var last := TrailOf(w.log, i).last;
      last.Some? && Made(w.log, i, last.value) && Agrees(last.value.meta, before)
  }

  /** The engine's own rollback after a failed write: restore, read back, compare. "Rolled back" rests on
      a reading made after it that passes the whole comparison, custom column and cover included. */
  method RollBack(s: Store, i: nat, c: nat) returns (out: Outcome, status: ChangeStatus, read: Option<Read>)
    requires s.Valid() && InState(s.db, i, Writing) && s.db.ledger[i].kind == Apply
    requires FindChange(s.db.changes, i) == Some(c) && s.db.changes[c].book == s.db.ledger[i].book
    modifies s
    ensures s.Valid() && old(s.history) <= s.history
    ensures Holding(s.Now(), i, old(s.db.ledger[i])) && s.db.changes == old(s.db.changes)
    ensures OthersKept(old(s.db), s.db, i)
    ensures status == RolledBack || status == RollbackFailed
    ensures read.Some? ==> Noted(s.Now(), i, read.value)
    ensures status == RolledBack ==>
              TrailOf(s.log, i).calls == old(TrailOf(s.log, i).calls)
                                         + 1 + |s.db.changes[c].custom| + (if s.db.changes[c].cover.Some? then 1 else 0)
    ensures status == RolledBack ==>
              && read.Some? && Agrees(read.value.meta, s.db.changes[c].before)
              && RestoreMatches(read.value.files, read.value.meta, s.db.changes[c].before, s.db.changes[c].custom,
                                s.db.changes[c].cover)
              && (s.db.changes[c].cover.Some? ==>
                    CoverShown(read.value.files, read.value.meta, s.db.changes[c].cover.value))
  {
    var change := s.db.changes[c];
    status, read := RollbackFailed, None;
    out := WriteComponents(s, i, Components(change));
    if out.Done? {
      ghost var mid := s.db;
      read := s.ShowMetadata(i);
      if read.Some?
         && RestoreMatches(read.value.files, read.value.meta, change.before, change.custom, change.cover) {
        status := RolledBack;
        RestoreMatchesMeans(read.value.files, read.value.meta, change.before, change.custom, change.cover);
      }
      var alive := Pause(s, i);
      out := if alive then Done else Crashed;
      OthersKeptTransitive(old(s.db), mid, s.db, i);
    }
  }

  /** The engine recorded how its rollback went. */
  predicate Judged(db: Database, i: nat) {
    Recorded(db, i, RolledBack) || Recorded(db, i, RollbackFailed)
  }

  /** Roll back and make the verdict durable. */
  method RollBackAndMark(s: Store, i: nat, c: nat) returns (out: Outcome)
    requires s.Valid() && InState(s.db, i, Writing) && s.db.ledger[i].kind == Apply
    requires FindChange(s.db.changes, i) == Some(c) && s.db.changes[c].status == PendingApply
    requires s.db.changes[c].book == s.db.ledger[i].book
    modifies s
    ensures s.Valid() && old(s.history) <= s.history && Holding(s.Now(), i, old(s.db.ledger[i]))
    ensures OthersKept(old(s.db), s.db, i) && !out.Done?
    ensures if out.Raised? then Judged(s.db, i) else s.db.changes == old(s.db.changes)
    ensures SoundRollback(s.Now(), i, old(s.db.changes[c].before))
  {
    var status, read;
    out, status, read := RollBack(s, i, c);
    if !out.Crashed? {
      MarkChange(s, i, c, status, read);
      out := Raised;
    }
  }

  /** The guarded block: write the components, or roll back and record how that went. */
  method PerformWrite(s: Store, i: nat, c: nat) returns (out: Outcome)
    requires s.Valid() && InState(s.db, i, Writing) && s.db.ledger[i].kind == Apply
    requires FindChange(s.db.changes, i) == Some(c) && s.db.changes[c].status == PendingApply
    requires s.db.changes[c].book == s.db.ledger[i].book
    modifies s
    ensures s.Valid() && old(s.history) <= s.history && Holding(s.Now(), i, old(s.db.ledger[i]))
    ensures OthersKept(old(s.db), s.db, i)
    ensures out.Done? ==> Recorded(s.db, i, Applied)
    ensures out.Done? ==>
              TrailOf(s.log, i).calls == old(TrailOf(s.log, i).calls)
                                         + 1 + (if Statement in old(s.db.ledger[i].patch) then 1 else 0)
                                         + (if old(s.db.changes[c].cover).Some? then 1 else 0)
    ensures out.Raised? ==> Judged(s.db, i)
    ensures SoundRollback(s.Now(), i, old(s.db.changes[c].before))
  {
    var op, change := s.db.ledger[i], s.db.changes[c];
    out := WriteComponents(s, i, 1 + (if Statement in op.patch then 1 else 0) + if change.cover.Some? then 1 else 0);
    ghost var mid := s.db;
    if out.Done? {
      MarkChange(s, i, c, Applied, None);
    } else if out.Raised? {
      out := RollBackAndMark(s, i, c);
      OthersKeptTransitive(old(s.db), mid, s.db, i);
    }
  }

  /** Others act, the change is recorded in a commit of its own, and others act again. */
  method RecordAmongOthers(s: Store, i: nat, change: Change) returns (alive: bool)
    requires s.Valid() && InState(s.db, i, Writing) && s.db.ledger[i].kind == Apply && FindChange(s.db.changes, i).None?
    requires Some(change.before) == s.db.ledger[i].before
    requires change == NewChange(i, s.db.ledger[i], change.before, change.backup, CoverOf(change))
    modifies s
    ensures s.Valid() && old(s.history) <= s.history && Holding(s.Now(), i, old(s.db.ledger[i]))
    ensures OthersKept(old(s.db), s.db, i) && LibraryKept(old(s.Now()), s.Now())
    ensures s.db.changes == old(s.db.changes) + [change]
    ensures FindChange(s.db.changes, i) == Some(|s.db.changes| - 1)
  {
    alive := Pause(s, i);
    ghost var first := s.Now();
    RecordChange(s, i, change);
    ghost var second := s.Now();
    var still := Pause(s, i);
    alive := alive && still;
    OthersKeptTransitive(old(s.db), second.db, s.db, i);
    LibraryKeptTransitive(first, second, s.Now());
    LibraryKeptTransitive(old(s.Now()), first, s.Now());
  }

  /** Back up and record the change, before any library write. Staging the cover, exporting the backups
      and creating the restore point may raise; so may building the target OPF, which happens after the
      change is durable and outside the guarded block. */
  method Prepare(s: Store, i: nat, book: Book) returns (out: Outcome)
    requires s.Valid() && InState(s.db, i, Writing) && s.db.ledger[i].kind == Apply
    requires s.db.ledger[i].before.Some? && FindChange(s.db.changes, i).None?
    modifies s
    ensures s.Valid() && old(s.history) <= s.history && Holding(s.Now(), i, old(s.db.ledger[i]))
    ensures OthersKept(old(s.db), s.db, i) && LibraryKept(old(s.Now()), s.Now())
    ensures out.Done? ==> Recorded(s.db, i, PendingApply)
    ensures Recorded(s.db, i, PendingApply) || FindChange(s.db.changes, i).None?
    ensures Recorded(s.db, i, PendingApply) ==>
              var change := s.db.changes[FindChange(s.db.changes, i).value];
              var op := old(s.db.ledger[i]);
              && change.op == i && change.book == op.book && change.run == op.run && change.before == op.before.value
              && change.after == op.patch && (change.cover.Some? <==> Cover in op.patch)
              && (Statement !in op.patch ==> change.custom == map[])
              && (Statement in op.patch ==> change.custom.Keys == {Edition})
              && (Statement in op.patch && SaysSomething(change.before, Edition) ==>
                    change.custom[Edition] == change.before[Edition].text)
              && (Statement in op.patch && Edition !in change.before && SaysSomething(change.before, Statement) ==>
                    change.custom[Edition] == change.before[Statement].text)
  {
    var op := s.db.ledger[i];
    var prepared: bool, built: bool := *, *;
    var backup: string, cover: string := *, *;
    if !book.calibre || book.calibreId == 0 || op.patch == map[] || !prepared {
      return Raised;
    }
    var change := NewChange(i, op, op.before.value, backup, cover);
    var alive := RecordAmongOthers(s, i, change);
    out := if !alive then Crashed else if !built then Raised else Done;
  }

  /** `apply_patch`. The change is durable before the library is touched; a failed write is rolled back
      and the verdict of that rollback is durable before the exception leaves; and an exception that
      leaves no such verdict left before the first library call. */
  method ApplyPatch(s: Store, i: nat, book: Book) returns (out: Outcome)
    requires s.Valid() && InState(s.db, i, Writing) && s.db.ledger[i].kind == Apply
    requires s.db.ledger[i].before.Some? && FindChange(s.db.changes, i).None?
    modifies s
    ensures s.Valid() && old(s.history) <= s.history && Holding(s.Now(), i, old(s.db.ledger[i]))
    ensures OthersKept(old(s.db), s.db, i)
    ensures out.Done? ==> Recorded(s.db, i, Applied)
    ensures SoundRollback(s.Now(), i, old(s.db.ledger[i].before.value))
    ensures out.Raised? && !Judged(s.db, i) ==> LibraryKept(old(s.Now()), s.Now())
  {
    out := Prepare(s, i, book);
    if out.Done? {
      ghost var mid := s.db;
      out := PerformWrite(s, i, FindChange(s.db.changes, i).value);
      OthersKeptTransitive(old(s.db), mid, s.db, i);
    }
  }
}
