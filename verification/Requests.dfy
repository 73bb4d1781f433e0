/** What a queued row asks for and what a recorded change says, over every run: they are fixed by the sealed
    package or by the change they are about, and nothing that happens later alters them. */
module Requests {
  import opened Metadata
  import opened Ledger
  import opened Boundary
  import opened Protocol
  import opened Invariants
  import opened Preservation
  import opened Theorems
  import opened Histories

  // ---------------------------------------------------------------- the invariant

  /** A V2 row expects, at each field it patches, what the sealed snapshot shows. */
  predicate ExpectsSealed(db: Database, op: Op) {
    && op.kind == Apply && op.evidence.Some? && op.evidence.value in db.packages
    && op.expected.Some? && op.expected.value.Keys == op.patch.Keys
    && forall field <- op.expected.value ::
         op.expected.value[field] == Shown(db.packages[op.evidence.value].current, field)
  }

  /** An undo row expects what its change wrote, on the book and run of that change. */
  predicate ExpectsChange(db: Database, op: Op)
    requires op.kind.Undo?
  {
    var c := op.kind.change;
    && c < |db.changes| && op.expected == Some(db.changes[c].after)
    && op.book == db.changes[c].book && op.run == db.changes[c].run && op.patch == map[]
    && op.book in db.books && op.calibreId == db.books[op.book].calibreId
  }

  predicate RequestOk(db: Database, i: nat)
    requires i < |db.ledger|
  {
    && (db.ledger[i].v2 ==> ExpectsSealed(db, db.ledger[i]))
    && (db.ledger[i].kind.Undo? ==> ExpectsChange(db, db.ledger[i]))
  }

  /** A change says what its operation was to write, and where. */
  predicate ChangeFits(db: Database, c: nat)
    requires c < |db.changes|
  {
    var change := db.changes[c];
    && change.op < |db.ledger| && change.after == db.ledger[change.op].patch && change.run == db.ledger[change.op].run
    && change.book in db.books
  }

  predicate RequestsOk(db: Database) {
    && (forall i :: 0 <= i < |db.ledger| ==> RequestOk(db, i))
    && (forall c :: 0 <= c < |db.changes| ==> ChangeFits(db, c))
  }

  // ---------------------------------------------------------------- every step

  lemma RequestKept(db: Database, db': Database, i: nat)
    requires Later(db, db') && i < |db.ledger| && RequestOk(db, i)
    ensures RequestOk(db', i)
  {
    assert RowLater(db.ledger[i], db'.ledger[i]);
    if db.ledger[i].kind.Undo? {
      var c := db.ledger[i].kind.change;
      assert ChangeLater(db.changes[c], db'.changes[c]);
    }
  }

  lemma ChangeKept(db: Database, db': Database, c: nat)
    requires Later(db, db') && c < |db.changes| && ChangeFits(db, c)
    ensures ChangeFits(db', c)
  {
    assert ChangeLater(db.changes[c], db'.changes[c]);
    assert RowLater(db.ledger[db.changes[c].op], db'.ledger[db.changes[c].op]);
  }

  lemma AllKept(db: Database, db': Database)
    requires Later(db, db') && RequestsOk(db)
    requires forall i :: |db.ledger| <= i < |db'.ledger| ==> RequestOk(db', i)
    requires forall c :: |db.changes| <= c < |db'.changes| ==> ChangeFits(db', c)
    ensures RequestsOk(db')
  {
    forall i | 0 <= i < |db'.ledger|
      ensures RequestOk(db', i)
    {
      if i < |db.ledger| {
        RequestKept(db, db', i);
      }
    }
    forall c | 0 <= c < |db'.changes|
      ensures ChangeFits(db', c)
    {
      if c < |db.changes| {
        ChangeKept(db, db', c);
      }
    }
  }

  lemma QueuedV2(w: World, e: Event, w': World)
    requires EnvironmentStep(w, e, w') && e.QueueV2?
    ensures |w'.db.ledger| == |w.db.ledger| + 1 && w'.db.changes == w.db.changes
    ensures RequestOk(w'.db, |w.db.ledger|)
  {
    QueuedAsSealed(w.db, e.evidence, e.authorization, e.guard);
  }

  lemma QueuedUndo(w: World, e: Event, w': World)
    requires EnvironmentStep(w, e, w') && e.QueueUndo? && ChangeFits(w.db, e.change)
    ensures |w'.db.ledger| == |w.db.ledger| + 1 && w'.db.changes == w.db.changes
    ensures RequestOk(w'.db, |w.db.ledger|)
  {
  }

  lemma EnvironmentRequests(w: World, e: Event, w': World)
    requires RequestsOk(w.db) && EnvironmentStep(w, e, w')
    ensures RequestsOk(w'.db)
  {
    EnvironmentLater(w, e, w');
    if e.QueueV2? {
      QueuedV2(w, e, w');
    } else if e.QueueUndo? {
      assert ChangeFits(w.db, e.change);
      QueuedUndo(w, e, w');
    }
    AllKept(w.db, w'.db);
  }

  lemma RecordFits(w: World, e: Event, w': World)
    requires Inv(w) && WriteStep(w, e, w') && e.RecordChange?
    ensures |w'.db.ledger| == |w.db.ledger| && |w'.db.changes| == |w.db.changes| + 1
    ensures ChangeFits(w'.db, |w.db.changes|)
  {
    assert RowEvidence(w.db, w.db.ledger[e.op], TrailOf(w.log, e.op));
  }

  /** The writer queues nothing and records a change only in the step made for it. */
  lemma WriterAddsNothing(w: World, e: Event, w': World)
    requires (PrepareStep(w, e, w') || WriteStep(w, e, w')) && !e.RecordChange?
    ensures |w'.db.ledger| == |w.db.ledger| && |w'.db.changes| == |w.db.changes|
  {
  }

  lemma WriterRequests(w: World, e: Event, w': World)
    requires Inv(w) && RequestsOk(w.db) && Later(w.db, w'.db) && (PrepareStep(w, e, w') || WriteStep(w, e, w'))
    ensures RequestsOk(w'.db)
  {
    if WriteStep(w, e, w') && e.RecordChange? {
      RecordFits(w, e, w');
    } else {
      WriterAddsNothing(w, e, w');
    }
    AllKept(w.db, w'.db);
  }

  lemma StepRequests(w: World, e: Event, w': World)
    requires Inv(w) && RequestsOk(w.db) && Step(w, e, w')
    ensures RequestsOk(w'.db)
  {
    if EnvironmentStep(w, e, w') {
      EnvironmentRequests(w, e, w');
    } else {
      StepLater(w, e, w');
      WriterRequests(w, e, w');
    }
  }

  lemma InitRequests(w: World)
    requires Init(w)
    ensures RequestsOk(w.db)
  {
  }

  lemma {:induction false} NextRequests(h: seq<World>, k: nat)
    requires Run(h) && 0 < k < |h| && RequestsOk(h[k - 1].db)
    ensures RequestsOk(h[k].db)
  {
    MomentIsReachable(h, k - 1);
    ReachableInv(h[k - 1]);
    var e := RunStep(h, k);
    StepRequests(h[k - 1], e, h[k]);
  }

  /** Every world of every run has such rows and changes. */
  lemma {:induction false} RunRequests(h: seq<World>, k: nat)
    requires Run(h) && k < |h|
    ensures RequestsOk(h[k].db)
  {
    if k > 0 {
      RunRequests(h, k - 1);
      NextRequests(h, k);
    } else {
      RunPrefix(h, 0);
      InitRequests(h[..1][0]);
    }
  }

  lemma ReachableRequests(w: World)
    requires Reachable(w)
    ensures RequestsOk(w.db)
  {
    var h: seq<World> :| Run(h) && h[|h| - 1] == w;
    RunRequests(h, |h| - 1);
  }

  // ---------------------------------------------------------------- what a write starts from

  /** An apply that entered `writing` began on a reading that showed, at each patched field, what the sealed
      snapshot shows; for the edition, the same text. */
  lemma StartedAsSealed(w: World, i: nat)
    requires Reachable(w) && i < |w.db.ledger| && w.db.ledger[i].kind == Apply && Written(w.db.ledger[i].state)
    ensures var op, t := w.db.ledger[i], TrailOf(w.log, i);
            && op.evidence.Some? && op.evidence.value in w.db.packages && t.start.Some?
            && op.before == Some(t.start.value.meta)
            && var current, live := w.db.packages[op.evidence.value].current, t.start.value.meta;
            && (forall field <- op.patch ::
                  || field.Statement? || (field.Cover? && At(current, field).Artifact?)
                  || At(live, field) == At(current, field))
            && (Statement in op.patch ==>
                  FieldMatches(t.start.value.files, live, Statement,
                               if Edition in current then current[Edition] else At(current, Statement)))
  {
    ReachableRequests(w);
    WrittenIsJustified(w, i);
    assert RequestOk(w.db, i);
    var op, start := w.db.ledger[i], TrailOf(w.log, i).start.value;
    var current := w.db.packages[op.evidence.value].current;
    MatchesPatchIff(start.files, start.meta, op.expected.value);
    CanonicalIff(op.patch);
    forall field <- op.patch
      ensures || field.Statement? || (field.Cover? && At(current, field).Artifact?)
              || At(start.meta, field) == At(current, field)
    {
      assert field in op.expected.value && field in op.patch.Keys;
    }
    assert Statement in op.patch ==> Statement in op.expected.value.Keys;
  }

  /** Every undo request expects what the apply that recorded its change was to write. */
  lemma UndoExpectsChange(w: World, i: nat)
    requires Reachable(w) && i < |w.db.ledger| && w.db.ledger[i].kind.Undo?
    ensures var op, c := w.db.ledger[i], w.db.ledger[i].kind.change;
            && c < |w.db.changes| && w.db.changes[c].op < |w.db.ledger|
            && var apply := w.db.ledger[w.db.changes[c].op];
            && op.expected == Some(w.db.changes[c].after) && w.db.changes[c].after == apply.patch
            && op.book == apply.book && op.run == w.db.changes[c].run == apply.run
            && op.book in w.db.books && op.calibreId == w.db.books[op.book].calibreId
  {
    ReachableRequests(w);
    assert RequestOk(w.db, i) && ChangeFits(w.db, w.db.ledger[i].kind.change);
    UndoNamesWrittenChange(w, i);
  }

  /** An undo that entered `writing` began on a reading that still showed, field by field, what that apply wrote:
      nobody's later edit of those fields is overwritten. */
  lemma UndoStartedOnChange(w: World, i: nat)
    requires Reachable(w) && i < |w.db.ledger| && w.db.ledger[i].kind.Undo? && Written(w.db.ledger[i].state)
    ensures var op, t := w.db.ledger[i], TrailOf(w.log, i); var c := op.kind.change;
            && c < |w.db.changes| && w.db.changes[c].op < |w.db.ledger|
            && t.start.Some? && op.before == Some(t.start.value.meta)
            && var apply := w.db.ledger[w.db.changes[c].op]; var start := t.start.value;
            && MatchesPatch(start.files, start.meta, apply.patch)
            && (forall field <- apply.patch ::
                  || field.Modified? || field.Statement? || (field.Cover? && apply.patch[field].Artifact?)
                  || At(start.meta, field) == apply.patch[field])
            && (Cover in apply.patch && apply.patch[Cover].Artifact? ==>
                  Cover in start.meta && start.meta[Cover].Text? && start.meta[Cover].text in start.files
                  && start.files[start.meta[Cover].text].sha256 == apply.patch[Cover].sha256)
  {
    UndoExpectsChange(w, i);
    ReachableInv(w);
    var t, c := TrailOf(w.log, i), w.db.ledger[i].kind.change;
    assert RowEvidence(w.db, w.db.ledger[i], t);
    MatchesPatchIff(t.start.value.files, t.start.value.meta, w.db.ledger[w.db.changes[c].op].patch);
  }
}
