/** The checks at the two boundaries, spelled out on the stored rows: what lets a request in, what lets the
    writer begin, what a queued row holds, and what the comparisons of files compare. */
module Boundary {
  import opened Metadata
  import opened Ledger
  import opened Gates

  // ---------------------------------------------------------------- patches and authorizations

  /** The fields with an explicit Calibre adapter. */
  lemma CanonicalIff(patch: Meta)
    ensures Canonical(patch) <==>
            patch.Keys <= {Title, Authors, Identifiers, Languages, Publisher, Pubdate, Series, SeriesIndex, Statement,
                           Cover}
  {
    if Canonical(patch) {
      forall field | field in patch.Keys
        ensures field in {Title, Authors, Identifiers, Languages, Publisher, Pubdate, Series, SeriesIndex, Statement,
                          Cover}
      {
        assert field in patch;
      }
    }
    if patch.Keys <= {Title, Authors, Identifiers, Languages, Publisher, Pubdate, Series, SeriesIndex, Statement,
                      Cover}
    {
      forall field <- patch
        ensures !field.Edition? && !field.Modified? && !field.Formats? && !field.Path? && !field.Other?
      {
        assert field in patch.Keys;
      }
    }
  }

  /** A patch is the sealed one less the locked fields: exactly the unlocked fields, with the sealed values. */
  lemma PatchForIff(pkg: Package, book: Book, patch: Meta)
    ensures patch == PatchFor(pkg, book) <==>
            && (forall field: Field :: field in patch <==> field in pkg.autoPatch && field !in book.fieldLocks)
            && (forall field <- patch :: field in pkg.autoPatch && patch[field] == pkg.autoPatch[field])
  {
    if patch == PatchFor(pkg, book) {
      forall field: Field
        ensures field in patch <==> field in pkg.autoPatch && field !in book.fieldLocks
      {
        assert field in book.fieldLocks <==> field in book.fieldLocks.Keys;
      }
    }
    if (forall field: Field :: field in patch <==> field in pkg.autoPatch && field !in book.fieldLocks)
       && (forall field <- patch :: field in pkg.autoPatch && patch[field] == pkg.autoPatch[field])
    {
      assert patch.Keys == PatchFor(pkg, book).Keys by {
        forall field: Field
          ensures field in patch.Keys <==> field in PatchFor(pkg, book).Keys
        {
          assert field in patch.Keys <==> field in patch;
        }
      }
    }
  }

  // ---------------------------------------------------------------- who may ask

  /** The rows bound to a pilot. */
  function BoundRows(ledger: seq<Op>, p: string): set<nat> {
    set i: nat | i < |ledger| && ledger[i].pilot == Some(p)
  }

  lemma BoundRowsNext(ledger: seq<Op>, p: string)
    requires ledger != []
    ensures var n := |ledger| - 1;
            BoundRows(ledger, p) == BoundRows(ledger[..n], p) + if ledger[n].pilot == Some(p) then {n} else {}
  {
    var n := |ledger| - 1;
    forall i: nat
      ensures i in BoundRows(ledger, p) <==> i in BoundRows(ledger[..n], p) || (i == n && ledger[n].pilot == Some(p))
    {
      assert i < n ==> ledger[..n][i] == ledger[i];
    }
  }

  /** They are counted by the recursive count. */
  lemma {:induction false} BoundCounts(ledger: seq<Op>, p: string)
    ensures Bound(ledger, p) == |BoundRows(ledger, p)|
  {
    if ledger != [] {
      var n := |ledger| - 1;
      BoundCounts(ledger[..n], p);
      BoundRowsNext(ledger, p);
      assert n !in BoundRows(ledger[..n], p);
    }
  }

  /** A pilot has room for one more: it is bound to this runtime, open, its budget agrees with the ledger and
      is not spent; or it is new, nothing is bound to it, and it may reserve at all. */
  lemma ReservableIff(db: Database, g: Guard)
    ensures var bound := |set i: nat | i < |db.ledger| && db.ledger[i].pilot == Some(g.pilot)|;
            Reservable(db, g) <==>
            if g.pilot in db.pilots then
              var p := db.pilots[g.pilot];
              && p.root == g.root && p.release == g.release && p.revision == g.revision && p.max == g.max
              && p.state == Open && p.reserved == bound < p.max
            else bound == 0 < g.max
  {
    BoundCounts(db.ledger, g.pilot);
    assert BoundRows(db.ledger, g.pilot) == set i: nat | i < |db.ledger| && db.ledger[i].pilot == Some(g.pilot);
  }

  /** Everything a V2 request has to satisfy apart from its pilot and the state of the queue. */
  lemma RequestableIff(db: Database, evidence: string, authorization: string, g: Guard)
    ensures Requestable(db, evidence, authorization, g) <==>
            && evidence in db.packages && db.packages[evidence].sealed && db.packages[evidence].tierA
            && var pkg := db.packages[evidence];
            && pkg.book in db.books
            && var book := db.books[pkg.book];
            && !pkg.remote && !pkg.failed && pkg.shadowed && book.run == pkg.run && book.calibreId == pkg.calibreId
            && book.current == pkg.current && book.files == pkg.files
            && g.enabled && g.ready && g.wellFormed && g.canonicalRoot && pkg.root == Some(g.root) && 1 <= g.max <= 5
            && Canonical(pkg.autoPatch) && (exists field :: field in pkg.autoPatch && field !in book.fieldLocks)
            && authorization in db.authorizations
            && var granted := db.authorizations[authorization];
            && granted.book == pkg.book && granted.run == pkg.run && granted.verdict == pkg.sha256
            && (forall field: Field :: field in granted.patch <==> field in pkg.autoPatch && field !in book.fieldLocks)
            && (forall field <- granted.patch :: granted.patch[field] == pkg.autoPatch[field])
  {
    if evidence in db.packages && db.packages[evidence].book in db.books {
      var pkg := db.packages[evidence];
      var book := db.books[pkg.book];
      var patch := PatchFor(pkg, book);
      PatchForIff(pkg, book, patch);
      if authorization in db.authorizations {
        PatchForIff(pkg, book, db.authorizations[authorization].patch);
      }
      NonEmptyIff(patch);
    }
  }

  lemma NonEmptyIff(m: Meta)
    ensures m != map[] <==> exists field :: field in m
  {
    if m != map[] {
      assert m.Keys != {};
      var field :| field in m.Keys;
      assert field in m;
    }
  }

  /** What the writer checks again, on the rows of that moment. */
  lemma ValidApplyIff(db: Database, op: Op, book: Book, runtime: Option<Guard>)
    ensures ValidApply(db, op, book, runtime) <==>
            && op.v2 && op.kind == Apply && op.run == book.run && op.calibreId == book.calibreId
            && op.locksHash == Some(book.fieldLocks)
            && op.evidence.Some? && op.evidence.value in db.packages && db.packages[op.evidence.value].sealed
            && var pkg := db.packages[op.evidence.value];
            && pkg.tierA && op.verdict == Some(pkg.sha256) && !pkg.remote && !pkg.failed && pkg.shadowed
            && pkg.book == op.book && pkg.run == op.run && pkg.calibreId == op.calibreId
            && book.current == pkg.current && book.files == pkg.files
            && Canonical(pkg.autoPatch) && op.patchHash == Some(op.patch)
            && (forall field: Field :: field in op.patch <==> field in pkg.autoPatch && field !in book.fieldLocks)
            && (forall field <- op.patch :: op.patch[field] == pkg.autoPatch[field])
            && runtime.Some?
            && var g := runtime.value;
            && g.enabled && g.ready && g.wellFormed && g.canonicalRoot && pkg.root == Some(g.root) && 1 <= g.max <= 5
            && op.pilot == Some(g.pilot) && g.pilot in db.pilots
            && var p := db.pilots[g.pilot];
            && p.root == g.root && p.release == g.release && p.revision == g.revision == g.schema && p.max == g.max
            && p.state == Open
            && 1 <= p.reserved == |set i: nat | i < |db.ledger| && db.ledger[i].pilot == Some(g.pilot)| <= p.max
            && op.authorization.Some? && op.authorization.value in db.authorizations
            && var granted := db.authorizations[op.authorization.value];
            && granted.book == op.book && granted.run == op.run && granted.verdict == pkg.sha256
            && granted.patch == op.patch
  {
    if runtime.Some? {
      BoundCounts(db.ledger, runtime.value.pilot);
    }
    if op.evidence.Some? && op.evidence.value in db.packages {
      PatchForIff(db.packages[op.evidence.value], book, op.patch);
    }
  }

  // ---------------------------------------------------------------- what a row holds

  /** What the stored book shows at a patched field; the edition is the custom column, if the book has it. */
  function Shown(current: Meta, field: Field): Value {
    if field.Statement? && Edition in current then current[Edition]
    else if field in current then current[field] else Null
  }

  /** The row a request queues: about the sealed book, for the sealed patch less the locked fields, expecting at
      each patched field what the sealed snapshot shows, and naming package, authorization, pilot and locks. */
  lemma QueuedAsSealed(db: Database, evidence: string, authorization: string, g: Guard)
    requires Requestable(db, evidence, authorization, g)
    ensures evidence in db.packages && db.packages[evidence].book in db.books
    ensures var pkg, op := db.packages[evidence], V2Row(db, evidence, authorization, g);
            var book := db.books[pkg.book];
            && op.book == pkg.book && op.run == pkg.run && op.calibreId == pkg.calibreId
            && op.evidence == Some(evidence) && op.verdict == Some(pkg.sha256) && op.pilot == Some(g.pilot)
            && op.authorization == Some(authorization) && op.locksHash == Some(book.fieldLocks)
            && op.patchHash == Some(op.patch) && op.key == ApplyV2Key(g.pilot, evidence, op.patch)
            && (forall field: Field :: field in op.patch <==> field in pkg.autoPatch && field !in book.fieldLocks)
            && (forall field <- op.patch :: op.patch[field] == pkg.autoPatch[field])
            && op.expected.Some? && op.expected.value.Keys == op.patch.Keys
            && forall field <- op.expected.value :: op.expected.value[field] == Shown(pkg.current, field)
  {
    var pkg, op := db.packages[evidence], V2Row(db, evidence, authorization, g);
    PatchForIff(pkg, db.books[pkg.book], op.patch);
  }

  // ---------------------------------------------------------------- files

  /** The last entry of a package for a path. */
  predicate LastEntry(formats: seq<Packaged>, path: string, j: nat) {
    j < |formats| && formats[j].path == path && forall m :: j < m < |formats| ==> formats[m].path != path
  }

  lemma {:induction false} SealedDigestIff(formats: seq<Packaged>, path: string, sha256: string)
    ensures SealedDigest(formats, path) == Some(sha256) <==>
            exists j: nat :: LastEntry(formats, path, j) && formats[j].file.sha256 == sha256
  {
    if formats != [] {
      var n := |formats| - 1;
      SealedDigestIff(formats[..n], path, sha256);
      if formats[n].path == path {
        assert LastEntry(formats, path, n);
      } else {
        forall j: nat
          ensures LastEntry(formats, path, j) <==> LastEntry(formats[..n], path, j)
        {
        }
      }
    }
  }

  lemma {:induction false} SealedPathsMembers(formats: seq<Packaged>)
    ensures Distinct(SealedPaths(formats))
    ensures forall path: string ::
              path in SealedPaths(formats) <==> exists m :: 0 <= m < |formats| && formats[m].path == path
  {
    if formats != [] {
      var n := |formats| - 1;
      SealedPathsMembers(formats[..n]);
      forall path: string
        ensures path in SealedPaths(formats) <==> path in SealedPaths(formats[..n]) || path == formats[n].path
        ensures path in SealedPaths(formats) <==> exists m :: 0 <= m < |formats| && formats[m].path == path
      {
        if path in SealedPaths(formats[..n]) {
          var m :| 0 <= m < n && formats[..n][m].path == path;
          assert formats[m].path == path;
        }
        if m :| 0 <= m < n && formats[m].path == path {
          assert formats[..n][m].path == path;
        }
      }
    }
  }

  /** One path has an entry before the other has any. */
  predicate SeenBefore(formats: seq<Packaged>, path: string, other: string) {
    exists j :: 0 <= j < |formats| && formats[j].path == path && forall m :: 0 <= m <= j ==> formats[m].path != other
  }

  lemma {:induction false} SealedPathsOrder(formats: seq<Packaged>, a: nat, b: nat)
    requires a < b < |SealedPaths(formats)|
    ensures SeenBefore(formats, SealedPaths(formats)[a], SealedPaths(formats)[b])
  {
    var n := |formats| - 1;
    var earlier, paths := SealedPaths(formats[..n]), SealedPaths(formats);
    SealedPathsMembers(formats[..n]);
    if b < |earlier| {
      SealedPathsOrder(formats[..n], a, b);
      var j :| 0 <= j < n && formats[..n][j].path == paths[a]
               && forall m :: 0 <= m <= j ==> formats[..n][m].path != paths[b];
      assert formats[j].path == paths[a] && forall m :: 0 <= m <= j ==> formats[m].path == formats[..n][m].path;
    } else {
      assert paths[a] in earlier;
      var j :| 0 <= j < n && formats[..n][j].path == paths[a];
      assert formats[j].path == paths[a];
      forall m | 0 <= m <= j
        ensures formats[m].path != paths[b]
      {
        assert formats[..n][m].path in earlier;
      }
    }
  }

  /** The sealed paths: those of the package's entries, each once, in the order in which they are first seen. */
  lemma SealedPathsMean(formats: seq<Packaged>)
    ensures var paths := SealedPaths(formats);
            && (forall j, k :: 0 <= j < k < |paths| ==> paths[j] != paths[k])
            && (forall path: string :: path in paths <==> exists m :: 0 <= m < |formats| && formats[m].path == path)
            && (forall a, b :: 0 <= a < b < |paths| ==> SeenBefore(formats, paths[a], paths[b]))
  {
    SealedPathsMembers(formats);
    forall a, b | 0 <= a < b < |SealedPaths(formats)|
      ensures SeenBefore(formats, SealedPaths(formats)[a], SealedPaths(formats)[b])
    {
      SealedPathsOrder(formats, a, b);
    }
  }

  /** Before a write: the live paths are the sealed ones in order, and every file has the sealed digest. */
  lemma SameFilesIff(files: Files, pkg: Package, live: Meta)
    ensures SameFiles(files, pkg, live) <==>
            && SealedPaths(pkg.formats) == pkg.files
            && pkg.files == (if Formats in live && live[Formats].Json? then live[Formats].paths else [])
            && forall k :: 0 <= k < |pkg.files| ==>
                 && pkg.files[k] in files
                 && exists j: nat :: LastEntry(pkg.formats, pkg.files[k], j)
                                     && pkg.formats[j].file.sha256 == files[pkg.files[k]].sha256
  {
    SealedPathsMembers(pkg.formats);
    forall path: string, sha256: string
      ensures SealedDigest(pkg.formats, path) == Some(sha256) <==>
              exists j: nat :: LastEntry(pkg.formats, path, j) && pkg.formats[j].file.sha256 == sha256
    {
      SealedDigestIff(pkg.formats, path, sha256);
    }
  }

  /** The files at some paths, one after the other. */
  function FilesAt(files: Files, paths: seq<string>): (r: seq<File>)
    requires forall k :: 0 <= k < |paths| ==> paths[k] in files
    ensures |r| == |paths| && forall k :: 0 <= k < |r| ==> r[k] == files[paths[k]]
  {
    seq(|paths|, k requires 0 <= k < |paths| => files[paths[k]])
  }

  /** The files a package seals, one after the other. */
  function SealedFiles(formats: seq<Packaged>): (r: seq<File>)
    ensures |r| == |formats| && forall k :: 0 <= k < |r| ==> r[k] == formats[k].file
  {
    seq(|formats|, k requires 0 <= k < |formats| => formats[k].file)
  }

  lemma {:induction false} ContentsCount(files: Files, paths: seq<string>)
    requires AllPresent(files, paths)
    ensures Contents(files, paths) == multiset(FilesAt(files, paths))
  {
    if paths != [] {
      ContentsCount(files, paths[1..]);
      assert FilesAt(files, paths) == [files[paths[0]]] + FilesAt(files, paths[1..]);
    }
  }

  lemma {:induction false} SealedCounts(formats: seq<Packaged>)
    ensures Sealed(formats) == multiset(SealedFiles(formats))
  {
    if formats != [] {
      SealedCounts(formats[1..]);
      assert SealedFiles(formats) == [formats[0].file] + SealedFiles(formats[1..]);
    }
  }

  /** After a write: the paths are pairwise different, all are there, and each extension and digest occurs as often
      among the live files as among the sealed ones. */
  lemma SameContentsIff(files: Files, pkg: Package, live: Meta)
    ensures SameContents(files, pkg, live) <==>
            var paths := if Formats in live && live[Formats].Json? then live[Formats].paths else [];
            && (forall j, k :: 0 <= j < k < |paths| ==> paths[j] != paths[k])
            && SealedPaths(pkg.formats) == pkg.files && (forall k :: 0 <= k < |paths| ==> paths[k] in files)
            && multiset(FilesAt(files, paths)) == multiset(SealedFiles(pkg.formats))
  {
    var paths := FormatPaths(live);
    if AllPresent(files, paths) {
      ContentsCount(files, paths);
    }
    SealedCounts(pkg.formats);
  }
}
