/** The guarantees are not vacuous. An announced write can still succeed exactly when its edition fields are
    coherent or patched, and every request that is ready to begin can be carried through to success. The ways
    a write can go wrong without anybody's fault do occur: runs that end in them. */
module Feasibility {
  import opened Metadata
  import opened Ledger
  import opened Gates
  import opened Protocol
  import opened Invariants
  import opened Preservation
  import opened Theorems
  import opened Histories
  import opened Waiting
  import opened Engine
  import opened Settling
  import opened Store

  // ---------------------------------------------------------------- queue and claim

  /** What a request still needs from outside before it may begin: the writer runs the expected schema and
      the library shows the sealed snapshot. */
  ghost predicate Ready(w: World, evidence: string, authorization: string, g: Guard) {
    && Admissible(w.db, evidence, authorization, g) && g.schema == g.revision
    && var op := V2Row(w.db, evidence, authorization, g);
    && w.db.books[op.book].calibreId != 0 && op.book in w.lib.meta
    && SameFiles(w.lib.files, w.db.packages[evidence], w.lib.meta[op.book])
    && MatchesPatch(w.lib.files, w.lib.meta[op.book], op.expected.value)
  }

  function Queued(w: World, evidence: string, authorization: string, g: Guard): World
    requires Admissible(w.db, evidence, authorization, g)
  {
    w.(db := Reserve(w.db, evidence, authorization, g))
  }

  function ClaimedBy(w: World, i: nat): World
    requires InState(w.db, i, Requested)
  {
    w.(db := ClaimedTables(w.db, i, 0), log := Note(w.log, i, TrailOf(w.log, i).(validated := None, readings := [])))
  }

  lemma LockedIsUnsettled(db: Database, book: string)
    requires LocksOk(db) && book in db.locks
    ensures exists i :: 0 <= i < |db.ledger| && !Terminal(db.ledger[i].state)
  {
    assert !Terminal(db.ledger[db.locks[book].op].state);
  }

  /** With everything settled, the new row is the first pending one and its book is free. */
  lemma CanClaim(w: World, evidence: string, authorization: string, g: Guard)
    requires Inv(w) && Admissible(w.db, evidence, authorization, g)
    ensures var q := Queued(w, evidence, authorization, g); var i := |w.db.ledger|;
            InState(q.db, i, Requested) && Step(q, Event.Claim(i, 0), ClaimedBy(q, i))
  {
    var q, i := Queued(w, evidence, authorization, g), |w.db.ledger|;
    forall k | 0 <= k < i
      ensures q.db.outbox[k] != Pending
    {
      assert RowOk(w.db.ledger[k], w.db.outbox[k]);
    }
    if q.db.ledger[i].book in w.db.locks {
      LockedIsUnsettled(w.db, q.db.ledger[i].book);
    }
    assert PrepareStep(q, Event.Claim(i, 0), ClaimedBy(q, i));
  }

  /** A reservation leaves the budget in the state the writer checks again. */
  lemma BudgetAfterClaim(w: World, evidence: string, authorization: string, g: Guard)
    requires Admissible(w.db, evidence, authorization, g)
    ensures var i := |w.db.ledger|; var q := Queued(w, evidence, authorization, g);
            && InState(q.db, i, Requested)
            && Bound(ClaimedBy(q, i).db.ledger, g.pilot) == Bound(w.db.ledger, g.pilot) + 1
  {
    var i, q := |w.db.ledger|, Queued(w, evidence, authorization, g);
    BoundAppend(w.db.ledger, q.db.ledger[i], g.pilot);
    BoundMove(q.db.ledger, i, ClaimedBy(q, i).db.ledger[i], g.pilot);
  }

  lemma CanValidate(w: World, evidence: string, authorization: string, g: Guard)
    requires Inv(w) && Admissible(w.db, evidence, authorization, g) && g.schema == g.revision
    ensures var i := |w.db.ledger|; var q := Queued(w, evidence, authorization, g);
            && InState(q.db, i, Requested)
            && var c := ClaimedBy(q, i); var op := c.db.ledger[i];
            op.book in c.db.books && ValidApply(c.db, op, c.db.books[op.book], Some(g))
  {
    BudgetAfterClaim(w, evidence, authorization, g);
  }

  lemma NothingRecordedYet(db: Database)
    requires ChangesOk(db)
    ensures FindChange(db.changes, |db.ledger|).None?
  {
    var own := FindChange(db.changes, |db.ledger|);
    assert own.Some? ==> ChangeOk(db, db.changes[own.value]);
  }

  /** A claimed, valid operation over the library it was authorized for. */
  ghost predicate Poised(w: World, i: nat, g: Guard) {
    && InState(w.db, i, Claimed)
    && var op := w.db.ledger[i];
    && op.book in w.db.books && w.db.books[op.book].calibreId != 0 && op.book in w.lib.meta
    && ValidApply(w.db, op, w.db.books[op.book], Some(g))
    && op.expected.Some? && MatchesPatch(w.lib.files, w.lib.meta[op.book], op.expected.value)
    && SameFiles(w.lib.files, w.db.packages[op.evidence.value], w.lib.meta[op.book])
    && FindChange(w.db.changes, i).None?
  }

  /** Once queued and claimed, the operation passes every check the writer repeats. */
  lemma PoisedAfterClaim(w: World, evidence: string, authorization: string, g: Guard)
    requires Inv(w) && Ready(w, evidence, authorization, g)
    ensures var i := |w.db.ledger|; var q := Queued(w, evidence, authorization, g);
            InState(q.db, i, Requested) && Poised(ClaimedBy(q, i), i, g)
  {
    CanValidate(w, evidence, authorization, g);
    NothingRecordedYet(w.db);
  }

  // ---------------------------------------------------------------- begin, write, settle

  function Validated(w: World, i: nat): World
    requires i < |w.db.ledger| && w.db.ledger[i].book in w.db.books
  {
    w.(log := Note(w.log, i, TrailOf(w.log, i).(validated := Some(w.db.books[w.db.ledger[i].book]))))
  }

  function ReadBy(w: World, i: nat): World
    requires i < |w.db.ledger| && w.db.ledger[i].book in w.lib.meta
  {
    w.(log := ObservedLog(w, i))
  }

  /** The library answers for the book of an operation in progress, and the answer is on record. */
  lemma CanRead(w: World, i: nat)
    requires i < |w.db.ledger| && i < |w.db.outbox| && Active(w.db.ledger[i].state)
    requires w.db.ledger[i].book in w.lib.meta
    ensures Step(w, Event.Observe(i), ReadBy(w, i)) && Made(ReadBy(w, i).log, i, Observed(w, i))
  {
    assert PrepareStep(w, Event.Observe(i), ReadBy(w, i));
    assert TrailOf(ReadBy(w, i).log, i).readings == TrailOf(w.log, i).readings + [Observed(w, i)];
  }

  function BegunFrom(w: World, i: nat, reading: Reading): World
    requires InState(w.db, i, Claimed)
  {
    w.(db := BegunApplyTables(w.db, i, reading.meta),
       log := Note(w.log, i, TrailOf(w.log, i).(start := Some(reading))))
  }

  lemma CanValidateNow(w: World, i: nat, g: Guard)
    requires Poised(w, i, g)
    ensures Step(w, Event.Validate(i, Some(g)), Validated(w, i)) && Poised(Validated(w, i), i, g)
    ensures TrailOf(Validated(w, i).log, i).validated.Some?
  {
    assert PrepareStep(w, Event.Validate(i, Some(g)), Validated(w, i));
  }

  lemma CanBegin(w: World, i: nat, g: Guard)
    requires Poised(w, i, g) && TrailOf(w.log, i).validated.Some? && Made(w.log, i, Observed(w, i))
    ensures Step(w, Event.BeginApply(i, Observed(w, i)), BegunFrom(w, i, Observed(w, i)))
  {
    assert PrepareStep(w, Event.BeginApply(i, Observed(w, i)), BegunFrom(w, i, Observed(w, i)));
  }

  function PlainChange(w: World, i: nat): Change
    requires i < |w.db.ledger| && w.db.ledger[i].before.Some?
  {
    var op := w.db.ledger[i];
    NewChange(i, op, op.before.value, "", "")
  }

  function RecordedBy(w: World, i: nat): World
    requires i < |w.db.ledger| && w.db.ledger[i].before.Some?
  {
    w.(db := w.db.(changes := w.db.changes + [PlainChange(w, i)]))
  }

  /** An apply in `writing` whose target Calibre can produce as `after`. */
  ghost predicate Writable(w: World, i: nat, after: Library) {
    && InState(w.db, i, Writing)
    && var op := w.db.ledger[i];
    && op.kind == Apply && op.before.Some? && op.target.Some? && op.evidence.Some?
    && LoadPackage(w.db, op.evidence.value).Some? && OnlyBook(w.lib, after, op.book)
    && Verifies(after, op.book, op.target.value, LoadPackage(w.db, op.evidence.value).value)
  }

  lemma CanRecord(w: World, i: nat, after: Library)
    requires Writable(w, i, after) && FindChange(w.db.changes, i).None?
    ensures var r := RecordedBy(w, i);
            && Step(w, Event.RecordChange(i, PlainChange(w, i)), r)
            && Writable(r, i, after) && FindChange(r.db.changes, i).Some?
  {
    assert WriteStep(w, Event.RecordChange(i, PlainChange(w, i)), RecordedBy(w, i));
  }

  function TouchedBy(w: World, i: nat, after: Library): World {
    w.(lib := after, log := TouchedLog(w.log, i))
  }

  lemma CanTouch(w: World, i: nat, after: Library)
    requires Writable(w, i, after) && FindChange(w.db.changes, i).Some?
    ensures Step(w, Event.Touch(i, after), TouchedBy(w, i, after))
  {
    assert WriteStep(w, Event.Touch(i, after), TouchedBy(w, i, after));
  }

  /** A library whose answer verifies can be accepted. */
  lemma CanSettle(w: World, i: nat)
    requires Writable(w, i, w.lib) && Made(w.log, i, Observed(w, i))
    ensures var r := Observed(w, i);
            var db' := AppliedTables(w.db, i, Align(w.db.ledger[i].target.value, r.meta), r.meta);
            && Step(w, Event.SucceedApply(i, r, r), World(db', w.lib, AppliedLog(w.log, i, r, r)))
            && InState(db', i, Succeeded)
  {
    var r := Observed(w, i);
    assert Made(w.log, i, Reading(r.meta, r.files, r.at));
    AppliedIsStep(w, i, r, r);
  }

  // ---------------------------------------------------------------- what Calibre can produce

  /** The library shows the aligned target over files with the sealed contents. */
  ghost predicate Verifies(lib: Library, book: string, target: Meta, pkg: Package) {
    && book in lib.meta && SameContents(lib.files, pkg, lib.meta[book])
    && MatchesPatch(lib.files, lib.meta[book], Align(target, lib.meta[book]))
  }

  function Unary(k: nat): (path: string)
    ensures |path| == k && "cover" != path
  {
    var path := seq(k, _ => 'a');
    assert k == 5 ==> path[0] != "cover"[0];
    path
  }

  function FreshPaths(n: nat): seq<string> {
    seq(n, k requires 0 <= k => Unary(k))
  }

  /** The sealed files at fresh paths, and a cover with the given digest. */
  function FreshFiles(formats: seq<Packaged>, cover: string): (files: Files)
    ensures "cover" in files && files["cover"].sha256 == cover
    ensures forall k :: 0 <= k < |formats| ==> Unary(k) in files && files[Unary(k)] == formats[k].file
  {
    if formats == [] then map["cover" := File("", cover)]
    else
      var n := |formats| - 1;
      FreshFiles(formats[..n], cover)[Unary(n) := formats[n].file]
  }

  lemma {:induction false} ContentsAreSealed(files: Files, paths: seq<string>, formats: seq<Packaged>)
    requires |paths| == |formats| && AllPresent(files, paths)
    requires forall k :: 0 <= k < |paths| ==> files[paths[k]] == formats[k].file
    ensures Contents(files, paths) == Sealed(formats)
  {
    if paths != [] {
      ContentsAreSealed(files, paths[1..], formats[1..]);
    }
  }

  /** The metadata after an ideal write: the target, with the files and an artifact cover in new places. */
  function Produced(target: Meta, paths: seq<string>): Meta {
    var moved := target[Formats := Json("", true, paths)];
    if Get(target, Cover).Artifact? then moved[Cover := Text("cover")] else moved
  }

  lemma ProducedMatches(files: Files, before: Meta, patch: Meta, paths: seq<string>)
    requires Canonical(patch) && (Statement in patch || EditionCoherent(before))
    requires var cover := Get(TargetOf(before, patch), Cover);
             cover.Artifact? ==> "cover" in files && files["cover"].sha256 == cover.sha256
    ensures var target := TargetOf(before, patch);
            MatchesPatch(files, Produced(target, paths), Align(target, Produced(target, paths)))
  {
    var target := TargetOf(before, patch);
    var m := Produced(target, paths);
    assert Statement in patch ==> Edition !in target;
    forall field <- Align(target, m) | field != Modified
      ensures FieldMatches(files, m, field, Align(target, m)[field])
    {
    }
  }

  /** Whatever the package seals, some library state verifies a target with coherent edition fields. */
  lemma CanProduce(lib: Library, book: string, before: Meta, patch: Meta, pkg: Package) returns (after: Library)
    requires Canonical(patch) && (Statement in patch || EditionCoherent(before))
    requires SealedPaths(pkg.formats) == pkg.files
    ensures OnlyBook(lib, after, book) && Verifies(after, book, TargetOf(before, patch), pkg)
  {
    var target := TargetOf(before, patch);
    var cover := Get(target, Cover);
    var paths := FreshPaths(|pkg.formats|);
    var files := FreshFiles(pkg.formats, if cover.Artifact? then cover.sha256 else "");
    after := Library(lib.meta[book := Produced(target, paths)], files);
    assert FormatPaths(Produced(target, paths)) == paths;
    forall j, k | 0 <= j < k < |paths|
      ensures paths[j] != paths[k]
    {
      assert |paths[j]| == j && |paths[k]| == k;
    }
    ContentsAreSealed(files, paths, pkg.formats);
    ProducedMatches(files, before, patch, paths);
  }

  // ---------------------------------------------------------------- runs

  lemma {:induction false} Extend(h: seq<World>, e: Event, w: World) returns (h': seq<World>)
    requires Run(h) && Step(h[|h| - 1], e, w)
    ensures Run(h') && h' == h + [w]
  {
    StepIsNext(h[|h| - 1], e, w);
    RunExtends(h, w);
    h' := h + [w];
  }

  lemma CanQueue(w: World, evidence: string, authorization: string, g: Guard)
    requires Admissible(w.db, evidence, authorization, g)
    ensures Step(w, Event.QueueV2(evidence, authorization, g), Queued(w, evidence, authorization, g))
  {
    assert EnvironmentStep(w, Event.QueueV2(evidence, authorization, g), Queued(w, evidence, authorization, g));
  }

  lemma {:induction false} QueueRun(h: seq<World>, evidence: string, authorization: string, g: Guard)
    returns (h': seq<World>)
    requires Run(h) && Admissible(h[|h| - 1].db, evidence, authorization, g)
    ensures var w := h[|h| - 1]; var i := |w.db.ledger|; var q := Queued(w, evidence, authorization, g);
            Run(h') && h <= h' && InState(q.db, i, Requested) && h'[|h'| - 1] == ClaimedBy(q, i)
  {
    var w := h[|h| - 1];
    var i, q := |w.db.ledger|, Queued(w, evidence, authorization, g);
    RunKeeps(h);
    CanClaim(w, evidence, authorization, g);
    CanQueue(w, evidence, authorization, g);
    h' := Extend(h, Event.QueueV2(evidence, authorization, g), q);
    h' := Extend(h', Event.Claim(i, 0), ClaimedBy(q, i));
  }

  lemma {:induction false} PoisedRun(h: seq<World>, evidence: string, authorization: string, g: Guard)
    returns (h': seq<World>)
    requires Run(h) && Ready(h[|h| - 1], evidence, authorization, g)
    ensures var w := h[|h| - 1]; var i := |w.db.ledger|; var q := Queued(w, evidence, authorization, g);
            && Run(h') && h <= h' && InState(q.db, i, Requested)
            && h'[|h'| - 1] == ClaimedBy(q, i) && Poised(h'[|h'| - 1], i, g)
  {
    h' := QueueRun(h, evidence, authorization, g);
    RunKeeps(h);
    PoisedAfterClaim(h[|h| - 1], evidence, authorization, g);
  }

  /** An apply that has announced its write and done nothing else. */
  ghost predicate JustBegun(w: World, w': World, i: nat, op: Op) {
    && InState(w'.db, i, Writing) && w'.lib == w.lib && w'.log.edits == w.log.edits
    && w'.db.packages == w.db.packages && FindChange(w'.db.changes, i).None?
    && op.book in w.lib.meta
    && var now := w'.db.ledger[i];
    && SameRequest(op, now) && now.kind == Apply
    && now.before == Some(w.lib.meta[op.book]) && now.target == Some(TargetOf(w.lib.meta[op.book], op.patch))
  }

  lemma {:induction false} BeginRun(h: seq<World>, i: nat, g: Guard) returns (h': seq<World>)
    requires Run(h) && Poised(h[|h| - 1], i, g)
    ensures Run(h') && h <= h' && JustBegun(h[|h| - 1], h'[|h'| - 1], i, h[|h| - 1].db.ledger[i])
  {
    var w := h[|h| - 1];
    CanValidateNow(w, i, g);
    var v := Validated(w, i);
    CanRead(v, i);
    var r := ReadBy(v, i);
    CanBegin(r, i, g);
    h' := Extend(h, Event.Validate(i, Some(g)), v);
    h' := Extend(h', Event.Observe(i), r);
    h' := Extend(h', Event.BeginApply(i, Observed(r, i)), BegunFrom(r, i, Observed(r, i)));
  }

  /** Every run in which a request is ready can be continued until its write is announced. */
  lemma {:induction false} BegunRun(h: seq<World>, evidence: string, authorization: string, g: Guard)
    returns (h': seq<World>)
    requires Run(h) && Ready(h[|h| - 1], evidence, authorization, g)
    ensures var w := h[|h| - 1];
            && Run(h') && h <= h'
            && JustBegun(w, h'[|h'| - 1], |w.db.ledger|, V2Row(w.db, evidence, authorization, g))
  {
    var i := |h[|h| - 1].db.ledger|;
    var p := PoisedRun(h, evidence, authorization, g);
    h' := BeginRun(p, i, g);
  }

  lemma {:induction false} RecordRun(h: seq<World>, i: nat, after: Library) returns (h': seq<World>)
    requires Run(h) && Writable(h[|h| - 1], i, after)
    ensures Run(h') && h <= h' && Writable(h'[|h'| - 1], i, after) && h'[|h'| - 1].log == h[|h| - 1].log
    ensures FindChange(h'[|h'| - 1].db.changes, i).Some?
  {
    var w := h[|h| - 1];
    h' := h;
    if FindChange(w.db.changes, i).None? {
      CanRecord(w, i, after);
      h' := Extend(h, Event.RecordChange(i, PlainChange(w, i)), RecordedBy(w, i));
    }
  }

  lemma {:induction false} TouchRun(h: seq<World>, i: nat, after: Library) returns (h': seq<World>)
    requires Run(h) && Writable(h[|h| - 1], i, after) && FindChange(h[|h| - 1].db.changes, i).Some?
    ensures Run(h') && h <= h'
    ensures var t := TouchedBy(h[|h| - 1], i, after); Writable(t, i, after) && h'[|h'| - 1] == ReadBy(t, i)
  {
    var w := h[|h| - 1];
    CanTouch(w, i, after);
    var t := TouchedBy(w, i, after);
    CanRead(t, i);
    h' := Extend(h, Event.Touch(i, after), t);
    h' := Extend(h', Event.Observe(i), ReadBy(t, i));
  }

  lemma {:induction false} FinishRun(h: seq<World>, i: nat, after: Library) returns (h': seq<World>)
    requires Run(h) && Writable(h[|h| - 1], i, after)
    ensures Run(h') && h <= h' && InState(h'[|h'| - 1].db, i, Succeeded)
    ensures h'[|h'| - 1].log.edits == h[|h| - 1].log.edits
  {
    var recorded := RecordRun(h, i, after);
    var touched := TouchRun(recorded, i, after);
    var r := touched[|touched| - 1];
    CanRead(TouchedBy(recorded[|recorded| - 1], i, after), i);
    CanSettle(r, i);
    var o := Observed(r, i);
    var db' := AppliedTables(r.db, i, Align(r.db.ledger[i].target.value, o.meta), o.meta);
    h' := Extend(touched, Event.SucceedApply(i, o, o), World(db', r.lib, AppliedLog(r.log, i, o, o)));
  }

  /** An announced write over coherent or patched edition fields can be carried through to success. */
  lemma {:induction false} WriteRun(h: seq<World>, i: nat) returns (h': seq<World>)
    requires Run(h) && InState(h[|h| - 1].db, i, Writing) && h[|h| - 1].db.ledger[i].kind == Apply
    requires var op := h[|h| - 1].db.ledger[i];
             op.before.Some? && (Statement in op.patch || EditionCoherent(op.before.value))
    ensures Run(h') && h <= h' && InState(h'[|h'| - 1].db, i, Succeeded)
    ensures h'[|h'| - 1].log.edits == h[|h| - 1].log.edits
  {
    var w := h[|h| - 1];
    var op := w.db.ledger[i];
    assert Reachable(w);
    WrittenIsJustified(w, i);
    var pkg := LoadPackage(w.db, op.evidence.value).value;
    var after := CanProduce(w.lib, op.book, op.before.value, op.patch, pkg);
    h' := FinishRun(h, i, after);
  }

  /** An announced apply can still end succeeded exactly when it patches the edition or found its two edition
      fields coherent. */
  lemma WriteCanSucceedIff(w: World, i: nat)
    requires Reachable(w) && InState(w.db, i, Writing) && w.db.ledger[i].kind == Apply
    ensures w.db.ledger[i].before.Some?
    ensures (exists w' :: InOrder(w, w') && InState(w'.db, i, Succeeded)) <==>
            Statement in w.db.ledger[i].patch || EditionCoherent(w.db.ledger[i].before.value)
  {
    WriteAhead(w, i);
    var op := w.db.ledger[i];
    if Statement in op.patch || EditionCoherent(op.before.value) {
      var h: seq<World> :| Run(h) && h[|h| - 1] == w;
      var h' := WriteRun(h, i);
      assert Moments(h', |h| - 1, |h'| - 1, w, h'[|h'| - 1]);
    } else {
      forall w' | InOrder(w, w')
        ensures !InState(w'.db, i, Succeeded)
      {
        NeverSucceeds(w, w', i);
      }
    }
  }

  lemma NeverSucceeds(w: World, w': World, i: nat)
    requires InOrder(w, w') && InState(w.db, i, Writing) && w.db.ledger[i].kind == Apply
    requires var op := w.db.ledger[i];
             op.before.Some? && Statement !in op.patch && !EditionCoherent(op.before.value)
    ensures !InState(w'.db, i, Succeeded)
  {
    InOrderLater(w, w');
    assert RowLater(w.db.ledger[i], w'.db.ledger[i]);
    IncoherentNeverSucceeds(w', i);
  }

  // ---------------------------------------------------------------- requests

  /** The edition fields a request finds can be kept by its write. */
  ghost predicate Keepable(w: World, evidence: string, authorization: string, g: Guard)
    requires Ready(w, evidence, authorization, g)
  {
    var op := V2Row(w.db, evidence, authorization, g);
    Statement in op.patch || EditionCoherent(w.lib.meta[op.book])
  }

  lemma {:induction false} CarryThrough(start: World, h: seq<World>, i: nat, op: Op) returns (h': seq<World>)
    requires Run(h) && JustBegun(start, h[|h| - 1], i, op)
    requires Statement in op.patch || EditionCoherent(start.lib.meta[op.book])
    ensures Run(h') && h <= h' && InState(h'[|h'| - 1].db, i, Succeeded)
    ensures h'[|h'| - 1].log.edits == start.log.edits && SameRequest(op, h'[|h'| - 1].db.ledger[i])
  {
    h' := WriteRun(h, i);
    RequestKept(h', |h| - 1, i);
  }

  lemma {:induction false} RequestKept(h: seq<World>, j: nat, i: nat)
    requires Run(h) && j < |h| && i < |h[j].db.ledger|
    ensures i < |h[|h| - 1].db.ledger| && SameRequest(h[j].db.ledger[i], h[|h| - 1].db.ledger[i])
  {
    RunLater(h, j, |h| - 1);
    assert RowLater(h[j].db.ledger[i], h[|h| - 1].db.ledger[i]);
  }

  lemma {:induction false} KeepableRun(h: seq<World>, evidence: string, authorization: string, g: Guard)
    returns (h': seq<World>)
    requires Run(h) && Ready(h[|h| - 1], evidence, authorization, g)
    requires Keepable(h[|h| - 1], evidence, authorization, g)
    ensures Run(h') && h <= h' && InState(h'[|h'| - 1].db, |h[|h| - 1].db.ledger|, Succeeded)
    ensures h'[|h'| - 1].log.edits == h[|h| - 1].log.edits
    ensures SameRequest(V2Row(h[|h| - 1].db, evidence, authorization, g),
                        h'[|h'| - 1].db.ledger[|h[|h| - 1].db.ledger|])
  {
    var w := h[|h| - 1];
    var b := BegunRun(h, evidence, authorization, g);
    h' := CarryThrough(w, b, |w.db.ledger|, V2Row(w.db, evidence, authorization, g));
  }

  /** The edition fields as the sealed snapshot has them. */
  function Tidied(live: Meta, expected: Meta): Meta {
    live - {Edition, Statement} + map field | field in expected && field in {Edition, Statement} :: expected[field]
  }

  lemma TidiedIsExpected(files: Files, live: Meta, expected: Meta)
    requires MatchesPatch(files, live, expected)
    ensures MatchesPatch(files, Tidied(live, expected), expected) && EditionCoherent(Tidied(live, expected))
  {
    var m := Tidied(live, expected);
    assert Edition in expected ==> FieldMatches(files, live, Edition, expected[Edition]);
    assert Statement in expected ==> FieldMatches(files, live, Statement, expected[Statement]);
    forall field <- expected | field != Modified
      ensures FieldMatches(files, m, field, expected[field])
    {
      assert FieldMatches(files, live, field, expected[field]);
    }
  }

  function EditedTo(w: World, book: string, meta: Meta): World {
    w.(lib := w.lib.(meta := w.lib.meta[book := meta]), log := w.log.(edits := w.log.edits + [book]))
  }

  /** Somebody may tidy the edition fields, and the request is ready as before. */
  lemma CanTidy(w: World, evidence: string, authorization: string, g: Guard) returns (w': World)
    requires Ready(w, evidence, authorization, g)
    ensures Ready(w', evidence, authorization, g) && Keepable(w', evidence, authorization, g)
    ensures w'.db == w.db && Next(w, w')
  {
    var op := V2Row(w.db, evidence, authorization, g);
    var live := w.lib.meta[op.book];
    TidiedIsExpected(w.lib.files, live, op.expected.value);
    w' := EditedTo(w, op.book, Tidied(live, op.expected.value));
    assert FormatPaths(Tidied(live, op.expected.value)) == FormatPaths(live);
    assert EnvironmentStep(w, Event.ForeignEdit(op.book, w'.lib), w');
    StepIsNext(w, Event.ForeignEdit(op.book, w'.lib), w');
  }

  lemma {:induction false} TidyRun(h: seq<World>, evidence: string, authorization: string, g: Guard)
    returns (h': seq<World>)
    requires Run(h) && Ready(h[|h| - 1], evidence, authorization, g)
    ensures Run(h') && h <= h' && h'[|h'| - 1].db == h[|h| - 1].db
    ensures Ready(h'[|h'| - 1], evidence, authorization, g) && Keepable(h'[|h'| - 1], evidence, authorization, g)
  {
    var tidy := CanTidy(h[|h| - 1], evidence, authorization, g);
    RunExtends(h, tidy);
    h' := h + [tidy];
  }

  /** From every reachable world in which a request is admissible and the library is as authorized, a world
      is reachable in which the requested operation has succeeded, if need be after somebody else has put
      its edition fields in order. */
  lemma AdmissibleCanSucceed(w: World, evidence: string, authorization: string, g: Guard)
    requires Reachable(w) && Ready(w, evidence, authorization, g)
    ensures exists w' :: InOrder(w, w') && InState(w'.db, |w.db.ledger|, Succeeded)
  {
    var h: seq<World> :| Run(h) && h[|h| - 1] == w;
    var t := TidyRun(h, evidence, authorization, g);
    var h' := KeepableRun(t, evidence, authorization, g);
    assert Moments(h', |h| - 1, |h'| - 1, w, h'[|h'| - 1]);
  }

  /** The request is the next one queued after `w`, and has succeeded in `w'` with nobody else editing its
      book in between. */
  ghost predicate Unaided(w: World, w': World, request: Op) {
    && InOrder(w, w') && UneditedBetween(w, w', request.book)
    && InState(w'.db, |w.db.ledger|, Succeeded) && SameRequest(request, w'.db.ledger[|w.db.ledger|])
  }

  /** Without such help it can succeed exactly when it patches the edition or the two edition fields the
      library shows now are coherent. */
  lemma UnaidedSuccessIff(w: World, evidence: string, authorization: string, g: Guard)
    requires Reachable(w) && Ready(w, evidence, authorization, g)
    ensures (exists w' :: Unaided(w, w', V2Row(w.db, evidence, authorization, g))) <==>
            Keepable(w, evidence, authorization, g)
  {
    var op := V2Row(w.db, evidence, authorization, g);
    if Keepable(w, evidence, authorization, g) {
      var h: seq<World> :| Run(h) && h[|h| - 1] == w;
      var h' := KeepableRun(h, evidence, authorization, g);
      assert Moments(h', |h| - 1, |h'| - 1, w, h'[|h'| - 1]);
      assert Unaided(w, h'[|h'| - 1], op);
    } else {
      forall w'
        ensures !Unaided(w, w', op)
      {
        if Unaided(w, w', op) {
          UnaidedIsCoherent(w, w', op);
        }
      }
    }
  }

  lemma UnaidedIsCoherent(w: World, w': World, op: Op)
    requires Unaided(w, w', op) && Quiet(w.db) && op.kind == Apply && op.book in w.lib.meta
    ensures Statement in op.patch || EditionCoherent(w.lib.meta[op.book])
  {
    AsRequested(w, w');
    InOrderLater(w, w');
    if Statement !in op.patch && !EditionCoherent(w.lib.meta[op.book]) {
      IncoherentNeverSucceeds(w', |w.db.ledger|);
    }
  }

  lemma {:induction false} AbortRun(h: seq<World>, i: nat) returns (h': seq<World>)
    requires Run(h) && InState(h[|h| - 1].db, i, Writing) && h[|h| - 1].db.ledger[i].target.Some?
    ensures Run(h') && h <= h' && InState(h'[|h'| - 1].db, i, Unknown) && h'[|h'| - 1].lib == h[|h| - 1].lib
  {
    var w := h[|h| - 1];
    var target := w.db.ledger[i].target.value;
    AbortIsStep(w, i, Unknown, target, None, None);
    var w' := World(AbortedTables(w.db, i, Unknown, target, None, None), w.lib, w.log);
    h' := Extend(h, Event.Abort(i, Unknown, target, None, None), w');
  }

  /** From every reachable world in which a request is ready, a world is reachable in which the operation
      ended unknown although nobody touched the library: the engine may fail before its first call. */
  lemma ReadyCanEndUnknown(w: World, evidence: string, authorization: string, g: Guard)
    requires Reachable(w) && Ready(w, evidence, authorization, g)
    ensures exists w' :: InOrder(w, w') && InState(w'.db, |w.db.ledger|, Unknown) && w'.lib == w.lib
  {
    var h: seq<World> :| Run(h) && h[|h| - 1] == w;
    var b := BegunRun(h, evidence, authorization, g);
    var h' := AbortRun(b, |w.db.ledger|);
    assert Moments(h', |h| - 1, |h'| - 1, w, h'[|h'| - 1]);
  }

  // ---------------------------------------------------------------- two such runs

  /** One book with the given metadata, one sealed package that sets its title, one authorization. */
  function OneBook(live: Meta): World {
    var patch: Meta := map[Title := Text("New")];
    World(
      Database([], [], map[], [], map[], {},
               map["b" := Book("r", 1, true, [], live, map[])],
               map["e" := Package("b", "r", 1, true, "h", true, false, false, true, live, [], Some("/l"), patch, [])],
               map["a" := Authorization("b", "r", "h", patch)]),
      Library(map["b" := live], map[]), Log([], map[]))
  }

  function OneGuard(): Guard {
    Guard(true, true, true, "p", "/l", true, "d", "v", "v", 1)
  }

  lemma OneBookIsAdmissible(live: Meta)
    ensures Admissible(OneBook(live).db, "e", "a", OneGuard())
    ensures V2Row(OneBook(live).db, "e", "a", OneGuard()).patch == map[Title := Text("New")]
  {
    var db := OneBook(live).db;
    var pkg, book := db.packages["e"], db.books["b"];
    assert PatchFor(pkg, book) == pkg.autoPatch;
    assert Title in PatchFor(pkg, book);
    assert Requestable(db, "e", "a", OneGuard());
  }

  lemma OneBookIsReady(live: Meta)
    requires Title !in live && Formats !in live
    ensures Ready(OneBook(live), "e", "a", OneGuard())
    ensures V2Row(OneBook(live).db, "e", "a", OneGuard()).patch == map[Title := Text("New")]
  {
    OneBookIsAdmissible(live);
  }

  lemma OneRun(live: Meta)
    ensures Run([OneBook(live)])
  {
  }

  /** A succeeded apply is reachable. */
  lemma SuccessIsReachable()
    ensures exists w :: Reachable(w) && InState(w.db, 0, Succeeded)
  {
    OneBookIsReady(map[]);
    OneRun(map[]);
    var h := KeepableRun([OneBook(map[])], "e", "a", OneGuard());
    assert Reachable(h[|h| - 1]);
  }

  /** An interrupted apply over the sealed files that recovery takes neither for its target nor for its
      state before, with no change to restore from, although nobody touched the book. */
  ghost predicate Stranded(w: World, i: nat) {
    && InState(w.db, i, Writing) && w.db.ledger[i].kind == Apply && FindChange(w.db.changes, i).None?
    && w.log.edits == []
    && var op := w.db.ledger[i];
    && op.before.Some? && op.target.Some? && op.book in w.lib.meta && op.before.value == w.lib.meta[op.book]
    && op.evidence.Some? && LoadPackage(w.db, op.evidence.value).Some?
    && SameContents(w.lib.files, LoadPackage(w.db, op.evidence.value).value, w.lib.meta[op.book])
    && !MatchesPatch(w.lib.files, w.lib.meta[op.book], Align(op.target.value, w.lib.meta[op.book]))
    && !MatchesPatch(w.lib.files, w.lib.meta[op.book], op.before.value)
  }

  lemma TwoEditions() returns (live: Meta)
    ensures !EditionCoherent(live) && Title !in live && Formats !in live && Cover !in live
  {
    live := map[Edition := Text("2nd"), Statement := Text("First")];
    assert Str(live[Edition])[0] != Str(live[Statement])[0];
  }

  lemma NeitherTargetNorBefore(files: Files, live: Meta, patch: Meta)
    requires !EditionCoherent(live) && Canonical(patch) && Statement !in patch
    ensures !MatchesPatch(files, live, Align(TargetOf(live, patch), live)) && !MatchesPatch(files, live, live)
  {
    MatchesItselfIff(files, live);
    UntouchedShowsTargetIff(files, live, patch);
  }

  lemma BegunIsStranded(start: World, w: World, op: Op)
    requires JustBegun(start, w, 0, op) && w.log.edits == [] && Canonical(op.patch) && Statement !in op.patch
    requires !EditionCoherent(start.lib.meta[op.book])
    requires op.evidence.Some? && LoadPackage(w.db, op.evidence.value).Some?
    requires SameContents(start.lib.files, LoadPackage(w.db, op.evidence.value).value, start.lib.meta[op.book])
    ensures Stranded(w, 0)
  {
    NeitherTargetNorBefore(w.lib.files, w.lib.meta[op.book], op.patch);
  }

  /** Such a state is reachable: the writer began an apply over a book with two different edition texts. */
  lemma StrandedIsReachable()
    ensures exists w :: Reachable(w) && Stranded(w, 0)
  {
    var live := TwoEditions();
    OneBookIsReady(live);
    OneRun(live);
    var h := BegunRun([OneBook(live)], "e", "a", OneGuard());
    BegunIsStranded(OneBook(live), h[|h| - 1], V2Row(OneBook(live).db, "e", "a", OneGuard()));
    assert Reachable(h[|h| - 1]);
  }
}
