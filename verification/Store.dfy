/** The database session and the library as one mutable object. Every change goes through a
    method that records it as one step of the protocol, so the history is always a run. */
module Store {
  import opened Metadata
  import opened Ledger
  import opened Protocol
  import opened Shapes
  import opened Invariants
  import opened Preservation

  /** What the API and other people may have done to a world while the writer was not looking. */
  ghost predicate Undisturbed(w: World, w': World) {
    && w.db.ledger <= w'.db.ledger && w.db.outbox <= w'.db.outbox
    && (forall k :: |w.db.ledger| <= k < |w'.db.ledger| ==> Fresh(w'.db.ledger[k]))
    && w'.db.locks == w.db.locks && w'.db.changes == w.db.changes && Grows(w.db, w'.db)
    && w'.log.trails == w.log.trails && LibraryKept(w, w')
  }

  /** No row but `i` has changed, and rows queued meanwhile are untouched requests. */
  predicate OthersKept(db: Database, db': Database, i: nat) {
    && |db.ledger| <= |db'.ledger|
    && (forall k :: 0 <= k < |db.ledger| && k != i ==> db'.ledger[k] == db.ledger[k])
    && (forall k :: |db.ledger| <= k < |db'.ledger| ==> Fresh(db'.ledger[k]))
  }

  lemma OthersKeptTransitive(a: Database, b: Database, c: Database, i: nat)
    requires i < |a.ledger| && OthersKept(a, b, i) && OthersKept(b, c, i)
    ensures OthersKept(a, c, i)
  {
  }

  /** Every step of the environment leaves the writer's rows alone, and so do several in a row. */
  lemma EnvironmentLeavesUndisturbed(w: World, e: Event, w': World)
    requires EnvironmentStep(w, e, w')
    ensures Undisturbed(w, w')
  {
    if e.QueueV2? || e.QueueUndo? || e.QueueLegacy? {
      QueueShape(w, e, w');
    } else {
      EditShape(w, e, w');
    }
  }

  lemma UndisturbedTransitive(a: World, b: World, c: World)
    requires Undisturbed(a, b) && Undisturbed(b, c)
    ensures Undisturbed(a, c)
  {
    LibraryKeptTransitive(a, b, c);
  }

  /** What is known of one row at the end of any run. */
  lemma {:induction false} RowFacts(h: seq<World>, i: nat)
    requires Run(h) && i < |h[|h| - 1].db.ledger|
    ensures var db := h[|h| - 1].db; var op := db.ledger[i];
            && |db.outbox| == |db.ledger| && RowOk(op, db.outbox[i])
            && (!Written(op.state) ==> FindChange(db.changes, i).None?)
            && (op.kind.Undo? ==> op.kind.change < |db.changes| && op.book == db.changes[op.kind.change].book)
            && (op.kind.Undo? && op.state == Writing ==> op.target == Some(db.changes[op.kind.change].before))
            && (Written(op.state) ==> op.book in db.books && db.books[op.book].calibreId != 0)
  {
    RunKeeps(h);
    var db := h[|h| - 1].db;
    assert RowOk(db.ledger[i], db.outbox[i]);
    if FindChange(db.changes, i).Some? {
      assert ChangeOk(db, db.changes[FindChange(db.changes, i).value]);
      assert FindChange(db.changes, i).Some? && Written(db.ledger[i].state);
    }
    assert db.ledger[i].kind.Undo? ==> UndoOk(db, i);
    assert RowEvidence(db, db.ledger[i], TrailOf(h[|h| - 1].log, i));
  }

  lemma {:induction false} RowsMatch(h: seq<World>)
    requires Run(h)
    ensures |h[|h| - 1].db.outbox| == |h[|h| - 1].db.ledger|
  {
    RunKeeps(h);
  }

  /** A claimed operation has an event in processing and no change yet. */
  lemma {:induction false} ClaimFacts(h: seq<World>, i: nat)
    requires Run(h) && InState(h[|h| - 1].db, i, Claimed)
    ensures h[|h| - 1].db.outbox[i] == Processing && FindChange(h[|h| - 1].db.changes, i).None?
  {
    RowFacts(h, i);
  }

  lemma {:induction false} RunExtends(h: seq<World>, w: World)
    requires Run(h) && Next(h[|h| - 1], w)
    ensures Run(h + [w])
  {
    var k := h + [w];
    assert k[..|k| - 1] == h && k[|k| - 2] == h[|h| - 1] && k[|k| - 1] == w;
    assert Continues(k);
  }

  /** What was read for an operation in progress is still shown, unless somebody else edited the book since. */
  lemma {:induction false} MadeShows(h: seq<World>, i: nat, reading: Reading)
    requires Run(h) && i < |h[|h| - 1].db.ledger| && Active(h[|h| - 1].db.ledger[i].state)
    requires Made(h[|h| - 1].log, i, reading)
    ensures Shows(h[|h| - 1], h[|h| - 1].db.ledger[i].book, reading)
  {
    RunKeeps(h);
    assert RowFresh(h[|h| - 1], i);
  }

  // ---------------------------------------------------------------- readings

  /** `read` is an answer of the library about the book of operation `i`, given since the operation was
      claimed or last touched the library. */
  ghost predicate Noted(w: World, i: nat, read: Read) {
    exists at: nat :: Made(w.log, i, Reading(read.meta, read.files, at))
  }

  /** That answer, with its place in the run. */
  ghost function Stamp(w: World, i: nat, read: Read): (reading: Reading)
    requires Noted(w, i, read)
    ensures Made(w.log, i, reading) && reading.meta == read.meta && reading.files == read.files
  {
    var at: nat :| Made(w.log, i, Reading(read.meta, read.files, at));
    Reading(read.meta, read.files, at)
  }

  lemma ObservedIsNoted(w: World, i: nat)
    requires i < |w.db.ledger| && w.db.ledger[i].book in w.lib.meta
    ensures var w' := w.(log := ObservedLog(w, i));
            && Noted(w', i, Read(w.lib.meta[w.db.ledger[i].book], w.lib.files))
            && forall r :: Noted(w, i, r) ==> Noted(w', i, r)
  {
    var w' := w.(log := ObservedLog(w, i));
    var reading := Observed(w, i);
    assert TrailOf(w'.log, i).readings == TrailOf(w.log, i).readings + [reading];
    assert Made(w'.log, i, Reading(reading.meta, reading.files, reading.at));
    forall r | Noted(w, i, r)
      ensures Noted(w', i, r)
    {
      var reading := Stamp(w, i, r);
      assert Made(w'.log, i, Reading(r.meta, r.files, reading.at));
    }
  }

  lemma StepIsNext(w: World, e: Event, w': World)
    requires Step(w, e, w')
    ensures Next(w, w')
  {
  }

  lemma TouchIsNext(w: World, i: nat, lib: Library)
    requires InState(w.db, i, Writing) && HasRestorePoint(w.db, i) && OnlyBook(w.lib, lib, w.db.ledger[i].book)
    ensures Next(w, World(w.db, lib, TouchedLog(w.log, i)))
  {
    assert WriteStep(w, Event.Touch(i, lib), World(w.db, lib, TouchedLog(w.log, i)));
    StepIsNext(w, Event.Touch(i, lib), World(w.db, lib, TouchedLog(w.log, i)));
  }

  class Store {
    var db: Database
    var lib: Library
    ghost var log: Log
    ghost var history: seq<World>

    ghost function Now(): World
      reads this
    {
      World(db, lib, log)
    }

    ghost predicate Valid()
      reads this
    {
      Run(history) && history[|history| - 1] == Now()
    }

    constructor (books: map<string, Book>, packages: map<string, Package>, authorizations: map<string, Authorization>,
                 lib: Library)
      ensures Valid() && this.lib == lib
      ensures db == Database([], [], map[], [], map[], {}, books, packages, authorizations)
    {
      db := Database([], [], map[], [], map[], {}, books, packages, authorizations);
      this.lib := lib;
      log := Log([], map[]);
      new;
      history := [Now()];
    }

    /** One atomic commit. */
    method Commit(next: Database, ghost note: Log, ghost e: Event)
      requires Valid() && Step(Now(), e, World(next, lib, note))
      modifies this
      ensures Valid() && history == old(history) + [Now()]
      ensures db == next && lib == old(lib) && log == note
    {
      StepIsNext(Now(), e, World(next, lib, note));
      RunExtends(history, World(next, lib, note));
      db, log := next, note;
      history := history + [Now()];
    }

    /** A point where others may act, and where the process may die. Callers know no more than the
        contract: any number of steps of the environment may have been taken. */
    method Yield() returns (alive: bool)
      requires Valid()
      modifies this
      ensures Valid() && old(history) <= history && Undisturbed(old(Now()), Now())
    {
      alive := *;
    }

    /** `show_metadata` for the book of operation `i`: a reading, or an exception. */
    method ShowMetadata(i: nat) returns (read: Option<Read>)
      requires Valid() && i < |db.ledger| && Active(db.ledger[i].state)
      modifies this
      ensures Valid() && old(history) <= history && db == old(db) && lib == old(lib)
      ensures read.Some? ==>
                && db.ledger[i].book in lib.meta && read.value == Read(lib.meta[db.ledger[i].book], lib.files)
                && log == ObservedLog(old(Now()), i) && Noted(Now(), i, read.value)
      ensures read.None? ==> log == old(log)
      ensures forall r :: old(Noted(Now(), i, r)) ==> Noted(Now(), i, r)
    {
      RowsMatch(history);
      var answered: bool := *;
      read := None;
      if answered && db.ledger[i].book in lib.meta {
        read := Some(Read(lib.meta[db.ledger[i].book], lib.files));
        ObservedIsNoted(Now(), i);
        Commit(db, ObservedLog(Now(), i), Event.Observe(i));
      }
    }

    /** `set_metadata`, `set_custom` or `set_cover`: whatever it does to the book and the files,
        and whether or not it reports success, it may stop part-way. What was read before no longer counts. */
    method Touch(i: nat) returns (ok: bool)
      requires Valid() && InState(db, i, Writing) && HasRestorePoint(db, i)
      modifies this
      ensures Valid() && old(history) <= history
      ensures db == old(db) && OnlyBook(old(lib), lib, old(db.ledger[i].book))
      ensures log == TouchedLog(old(log), i)
    {
      var meta: Meta := *;
      var files: Files := *;
      var next := Library(lib.meta[db.ledger[i].book := meta], files);
      ghost var note := TouchedLog(log, i);
      TouchIsNext(Now(), i, next);
      RunExtends(history, World(db, next, note));
      lib, log := next, note;
      history := history + [Now()];
      ok := *;
    }
  }
}
