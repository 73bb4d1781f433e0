/** Metadata snapshots as the writer reads them from Calibre, and the comparisons it trusts.
    A snapshot maps field names to JSON values; a missing field reads as `Null`. */
module Metadata {

  datatype Option<+T> = None | Some(value: T)

  /** A JSON value. `Json` stands for every value that is neither null, a string nor a cover
      artifact: `repr` is its Python `str`, `paths` the format paths a writer extracts from it. */
  datatype Value =
    | Null
    | Text(text: string)
    | Artifact(repr: string, sha256: string)
    | Json(repr: string, truthy: bool, paths: seq<string>)

  /** The field names the write path mentions; `Edition` is the custom column `#edition`,
      `Statement` is `edition_statement` and `Modified` is the volatile `last_modified`. */
  datatype Field =
    | Title | Authors | Identifiers | Languages | Publisher | Pubdate | Series | SeriesIndex
    | Statement | Cover | Edition | Modified | Formats | Path | Other(name: string)

  type Meta = map<Field, Value>

  /** A file on disk: its case-folded extension and the digest of its bytes. */
  datatype File = File(format: string, sha256: string)

  type Files = map<string, File>

  /** A canonical patch carries only fields with an explicit Calibre adapter. */
  predicate Canonical(patch: Meta) {
    forall field <- patch :: !field.Edition? && !field.Modified? && !field.Formats? && !field.Path? && !field.Other?
  }

  /** Fields Calibre itself rewrites when it moves a book's folder. */
  predicate Relocatable(field: Field) {
    field.Formats? || field.Path?
  }

  function Get(m: Meta, field: Field): Value {
    if field in m then m[field] else Null
  }

  predicate Truthy(v: Value) {
    match v
    case Null => false
    case Text(s) => s != ""
    case Artifact(_, _) => true
    case Json(_, truthy, _) => truthy
  }

  function Or(a: Value, b: Value): Value {
    if Truthy(a) then a else b
  }

  function Str(v: Value): string {
    match v
    case Null => "None"
    case Text(s) => s
    case Artifact(repr, _) => repr
    case Json(repr, _, _) => repr
  }

  function EditionText(m: Meta): string {
    Str(Or(Get(m, Edition), Or(Get(m, Statement), Text(""))))
  }

  function FormatPaths(m: Meta): seq<string> {
    var v := Get(m, Formats);
    if v.Json? then v.paths else []
  }

  // ---------------------------------------------------------------- comparisons

  predicate FieldMatches(files: Files, observed: Meta, field: Field, expected: Value) {
    if field == Statement then
      EditionText(observed) == Str(Or(expected, Text("")))
    else if field == Cover && expected.Artifact? then
      var cover := Get(observed, Cover);
      cover.Text? && cover.text in files && files[cover.text].sha256 == expected.sha256
    else
      Get(observed, field) == expected
  }

  predicate MatchesPatch(files: Files, observed: Meta, patch: Meta) {
    forall field <- patch :: field == Modified || FieldMatches(files, observed, field, patch[field])
  }

  /** What the engine's own rollback check compares: every field except cover, edition and
      last_modified, then the custom column and the cover the change backed up. */
  predicate RestoreMatches(files: Files, observed: Meta, expected: Meta, custom: map<Field, string>,
                           cover: Option<string>)
  {
    && Agrees(observed, expected)
    && (forall column <- custom ::
          var found := if column in observed then observed[column]
                       else if Statement in observed then observed[Statement] else Text("");
          Str(Or(found, Text(""))) == custom[column])
    && (cover.Some? ==>
          var found := Get(observed, Cover);
          found.Text? && found.text in files && files[found.text].sha256 == cover.value)
  }

  /** Agreement on every recorded field outside cover, edition and last_modified. */
  predicate Agrees(observed: Meta, expected: Meta) {
    forall field <- expected ::
      || field.Cover? || field.Edition? || field.Statement? || field.Modified?
      || Get(observed, field) == expected[field]
  }

  // ---------------------------------------------------------------- targets

  function TargetOf(before: Meta, patch: Meta): Meta {
    (if Statement in patch then before - {Edition, Statement} else before) + patch
  }

  /** Calibre may move a book's files when its title or author changes: adopt the live paths. */
  function Align(target: Meta, observed: Meta): Meta {
    map field <- target :: if Relocatable(field) && field in observed then observed[field] else target[field]
  }

  /** The value a field outside the patch must keep. */
  function Kept(before: Meta, live: Meta, field: Field): Value {
    if (field.Formats? || field.Path?) && field in live then live[field]
    else if field in before then before[field] else Null
  }

  predicate FieldFramed(files: Files, observed: Meta, before: Meta, patch: Meta, live: Meta, field: Field) {
    || field !in before || field in patch || field == Modified || (Statement in patch && field == Edition)
    || FieldMatches(files, observed, field, Kept(before, live, field))
  }

  /** The part of a verified write that is not the patch: each other recorded field is as before. */
  predicate Framed(files: Files, observed: Meta, before: Meta, patch: Meta, live: Meta) {
    forall field <- before :: FieldFramed(files, observed, before, patch, live, field)
  }

  // ---------------------------------------------------------------- what the comparisons mean

  /** What a snapshot shows at a field; a missing field reads as null. */
  predicate ShowsAt(m: Meta, field: Field, value: Value) {
    if field in m then m[field] == value else value == Null
  }

  /** Fields that every comparison takes as they are: not the volatile one, and neither of the two with a
      comparison of their own, the edition and a cover given as an artifact. */
  predicate Verbatim(field: Field, expected: Value) {
    !field.Modified? && !field.Statement? && (field.Cover? ==> !expected.Artifact?)
  }

  /** A cover given as an artifact is shown by a file with its digest. */
  predicate CoverShown(files: Files, m: Meta, sha256: string) {
    Cover in m && m[Cover].Text? && m[Cover].text in files && files[m[Cover].text].sha256 == sha256
  }

  /** `_matches_patch`, one field at a time: verbatim, by digest, or through the edition. */
  lemma MatchesPatchIff(files: Files, observed: Meta, expected: Meta)
    ensures MatchesPatch(files, observed, expected) <==>
            && (forall field <- expected ::
                  Verbatim(field, expected[field]) ==> ShowsAt(observed, field, expected[field]))
            && (Cover in expected && expected[Cover].Artifact? ==> CoverShown(files, observed, expected[Cover].sha256))
            && (Statement in expected ==> FieldMatches(files, observed, Statement, expected[Statement]))
  {
    if MatchesPatch(files, observed, expected) {
      forall field <- expected
        ensures field == Modified || FieldMatches(files, observed, field, expected[field])
      {
      }
    }
  }

  predicate PlainText(m: Meta, field: Field) {
    field in m ==> m[field].Null? || m[field].Text?
  }

  predicate SaysSomething(m: Meta, field: Field) {
    field in m && m[field].Text? && m[field].text != ""
  }

  /** The edition shown is the text of `#edition`, or of `edition_statement` when the former is missing, null
      or empty; nothing at all counts as the empty text. */
  lemma EditionShownIff(files: Files, observed: Meta, text: string)
    requires PlainText(observed, Edition) && PlainText(observed, Statement)
    ensures FieldMatches(files, observed, Statement, Text(text)) <==>
            if SaysSomething(observed, Edition) then observed[Edition] == Text(text)
            else if SaysSomething(observed, Statement) then observed[Statement] == Text(text)
            else text == ""
    ensures FieldMatches(files, observed, Statement, Null) <==> FieldMatches(files, observed, Statement, Text(""))
  {
  }

  /** The edition text a snapshot shows. */
  lemma EditionTextMeans(m: Meta)
    requires PlainText(m, Edition) && PlainText(m, Statement)
    ensures EditionText(m) == if SaysSomething(m, Edition) then m[Edition].text
                              else if SaysSomething(m, Statement) then m[Statement].text else ""
  {
  }

  /** The engine's check after its rollback, one field at a time: every field but cover, edition and
      last_modified verbatim, and the backed-up cover by its digest. */
  lemma RestoreMatchesMeans(files: Files, observed: Meta, expected: Meta, custom: map<Field, string>,
                            cover: Option<string>)
    requires RestoreMatches(files, observed, expected, custom, cover)
    ensures forall field <- expected :: !field.Cover? && !field.Edition? && !field.Statement? && !field.Modified? ==>
              ShowsAt(observed, field, expected[field])
    ensures cover.Some? ==> CoverShown(files, observed, cover.value)
    ensures Edition in custom && SaysSomething(observed, Edition) ==> observed[Edition] == Text(custom[Edition])
    ensures Edition in custom && Edition in observed && (observed[Edition] == Null || observed[Edition] == Text("")) ==>
              custom[Edition] == ""
    ensures Edition in custom && Edition !in observed && SaysSomething(observed, Statement) ==>
              observed[Statement] == Text(custom[Edition])
  {
  }

  /** What a verified write keeps, field by field: outside the patch and outside formats, path, last_modified,
      cover and edition every recorded field is verbatim what it was; so are a cover that is not an artifact,
      and `#edition` unless the edition is patched; formats and path are those of the accepted reading. */
  lemma FramedMeans(files: Files, observed: Meta, before: Meta, patch: Meta, live: Meta)
    requires Framed(files, observed, before, patch, live)
    ensures forall field <- before ::
              || field in patch || field.Formats? || field.Path? || field.Modified? || field.Statement?
              || (field.Cover? && before[field].Artifact?) || (field.Edition? && Statement in patch)
              || ShowsAt(observed, field, before[field])
    ensures forall field <- before :: field !in patch && (field.Formats? || field.Path?) ==>
              ShowsAt(observed, field, if field in live then live[field] else before[field])
    ensures Statement in before && Statement !in patch ==> FieldMatches(files, observed, Statement, before[Statement])
    ensures Cover in before && Cover !in patch && before[Cover].Artifact? ==>
              CoverShown(files, observed, before[Cover].sha256)
  {
    forall field <- before
      ensures FieldFramed(files, observed, before, patch, live, field)
    {
    }
  }

  // ---------------------------------------------------------------- laws

  /** The aligned target at one field: the patch, else the value before, or the live paths. */
  lemma TargetAt(before: Meta, patch: Meta, live: Meta, field: Field)
    requires Canonical(patch)
    ensures var target := Align(TargetOf(before, patch), live);
            && (field in target <==> field in patch || (field in before && !(Statement in patch && field == Edition)))
            && (field in target ==>
                  var relocated := (field.Formats? || field.Path?) && field in live;
                  target[field] ==
                  if field in patch then patch[field] else if relocated then live[field] else before[field])
  {
    assert Formats !in patch && Path !in patch;
  }

  /** A write is verified exactly when the patch is there and nothing else moved. */
  lemma VerifiedIffPatchedAndFramed(files: Files, observed: Meta, before: Meta, patch: Meta, live: Meta)
    requires Canonical(patch)
    ensures MatchesPatch(files, observed, Align(TargetOf(before, patch), live))
       <==> MatchesPatch(files, observed, patch) && Framed(files, observed, before, patch, live)
  {
    var target := Align(TargetOf(before, patch), live);
    forall field: Field
      ensures SameDemand(files, observed, before, patch, live, target, field)
    {
      TargetAt(before, patch, live, field);
    }
    VerifiedPointwise(files, observed, before, patch, live, target);
  }

  /** At one field, the target demands what the patch and the frame together demand. */
  predicate SameDemand(files: Files, observed: Meta, before: Meta, patch: Meta, live: Meta, target: Meta, field: Field)
  {
    (field in target ==> field == Modified || FieldMatches(files, observed, field, target[field])) <==>
    (field in patch ==> field == Modified || FieldMatches(files, observed, field, patch[field]))
    && FieldFramed(files, observed, before, patch, live, field)
  }

  lemma VerifiedPointwise(files: Files, observed: Meta, before: Meta, patch: Meta, live: Meta, target: Meta)
    requires forall field: Field :: SameDemand(files, observed, before, patch, live, target, field)
    ensures MatchesPatch(files, observed, target)
       <==> MatchesPatch(files, observed, patch) && Framed(files, observed, before, patch, live)
  {
    if MatchesPatch(files, observed, target) {
      forall field <- patch
        ensures field == Modified || FieldMatches(files, observed, field, patch[field])
      {
        assert SameDemand(files, observed, before, patch, live, target, field);
      }
      forall field <- before
        ensures FieldFramed(files, observed, before, patch, live, field)
      {
        assert SameDemand(files, observed, before, patch, live, target, field);
      }
    }
    if MatchesPatch(files, observed, patch) && Framed(files, observed, before, patch, live) {
      forall field <- target
        ensures field == Modified || FieldMatches(files, observed, field, target[field])
      {
        assert SameDemand(files, observed, before, patch, live, target, field);
      }
    }
  }

  /** Both ways of checking a restore agree on every field outside cover, edition and last_modified. */
  lemma RestoreChecksAgree(files: Files, observed: Meta, before: Meta)
    requires MatchesPatch(files, observed, before)
    ensures Agrees(observed, before)
  {
    forall field <- before | !(field.Cover? || field.Edition? || field.Statement? || field.Modified?)
      ensures Get(observed, field) == before[field]
    {
      assert FieldMatches(files, observed, field, before[field]);
    }
  }

  /** The two edition fields of one snapshot, when both are set, must read alike. */
  predicate EditionCoherent(m: Meta) {
    Edition in m && Truthy(m[Edition]) && Statement in m ==> Str(m[Edition]) == Str(Or(m[Statement], Text("")))
  }

  /** A snapshot that can recognise itself: its edition fields are coherent and its cover, if any, is
      not given as an artifact. */
  predicate Recognisable(m: Meta) {
    EditionCoherent(m) && !Get(m, Cover).Artifact?
  }

  /** `_matches_patch` is not reflexive: an untouched snapshot matches itself exactly when it is
      recognisable, and no reading whatsoever matches one whose edition fields are incoherent. */
  lemma MatchesItselfIff(files: Files, m: Meta)
    ensures MatchesPatch(files, m, m) <==> Recognisable(m)
    ensures !EditionCoherent(m) ==> forall observed: Meta :: !MatchesPatch(files, observed, m)
  {
    if Recognisable(m) {
      forall field <- m | field != Modified
        ensures FieldMatches(files, m, field, m[field])
      {
      }
    } else if Get(m, Cover).Artifact? {
      assert !FieldMatches(files, m, Cover, m[Cover]);
    }
    if !EditionCoherent(m) {
      forall observed: Meta
        ensures MatchesPatch(files, observed, m) ==> FieldMatches(files, observed, Edition, m[Edition])
        ensures MatchesPatch(files, observed, m) ==> FieldMatches(files, observed, Statement, m[Statement])
      {
      }
    }
  }

  /** The snapshot already shows everything the patch asks for, and the patch overwrites whatever keeps
      the snapshot from matching itself. */
  predicate AlreadyThere(files: Files, m: Meta, patch: Meta) {
    && MatchesPatch(files, m, patch)
    && (Statement in patch || EditionCoherent(m)) && (Cover in patch || !Get(m, Cover).Artifact?)
  }

  /** A snapshot nobody touched passes for its own target exactly when the patch is already there. */
  lemma UntouchedShowsTargetIff(files: Files, m: Meta, patch: Meta)
    requires Canonical(patch)
    ensures MatchesPatch(files, m, Align(TargetOf(m, patch), m)) <==> AlreadyThere(files, m, patch)
  {
    VerifiedIffPatchedAndFramed(files, m, m, patch, m);
    FramedItselfIff(files, m, patch);
  }

  /** Such a snapshot need not match itself: here the patch settles which of two edition texts counts. */
  lemma AlreadyThereExample(files: Files)
    ensures var m: Meta := map[Edition := Text("2nd"), Statement := Text("First"), Title := Text("T")];
            var patch: Meta := map[Statement := Text("2nd")];
            !Recognisable(m) && AlreadyThere(files, m, patch)
  {
    var m: Meta := map[Edition := Text("2nd"), Statement := Text("First"), Title := Text("T")];
    assert Str(m[Edition])[0] != Str(m[Statement])[0];
  }

  lemma FramedItselfIff(files: Files, m: Meta, patch: Meta)
    ensures Framed(files, m, m, patch, m) <==>
            (Statement in patch || EditionCoherent(m)) && (Cover in patch || !Get(m, Cover).Artifact?)
  {
    if Framed(files, m, m, patch, m) {
      assert Statement in m ==> FieldFramed(files, m, m, patch, m, Statement);
      assert Cover in m ==> FieldFramed(files, m, m, patch, m, Cover);
    }
    if (Statement in patch || EditionCoherent(m)) && (Cover in patch || !Get(m, Cover).Artifact?) {
      forall field <- m
        ensures FieldFramed(files, m, m, patch, m, field)
      {
      }
    }
  }

  /** Incoherent edition fields that a patch leaves alone make every write over them unverifiable. */
  lemma IncoherentUnframed(files: Files, observed: Meta, before: Meta, patch: Meta, live: Meta)
    requires !EditionCoherent(before) && Statement !in patch && Edition !in patch
    ensures !Framed(files, observed, before, patch, live)
  {
    assert FieldFramed(files, observed, before, patch, live, Edition) ==> Get(observed, Edition) == before[Edition];
    assert FieldFramed(files, observed, before, patch, live, Statement) ==>
        EditionText(observed) == Str(Or(before[Statement], Text("")));
  }

  /** The incoherent case does occur: two different edition texts in one snapshot. */
  lemma IncoherentExample(files: Files)
    ensures var m := map[Edition := Text("2nd"), Statement := Text("First")];
            !MatchesPatch(files, m, m)
  {
    var m: Meta := map[Edition := Text("2nd"), Statement := Text("First")];
    assert Str(m[Edition])[0] != Str(m[Statement])[0];
    MatchesItselfIff(files, m);
  }
}
