/** What makes two books clones, on the format names and digests as they are stored: which mapping a book has,
    when two books have the same one, and that case and padding do not matter. */
module Spelling {
  import opened Clusters
  import opened Deduplication

  // ---------------------------------------------------------------- texts in normal form

  /** White space around a text, and case-variants of a letter. */
  predicate Space(c: char) {
    c in {' ', '\t', '\n', '\r', 11 as char, 12 as char, 28 as char, 29 as char, 30 as char, 31 as char}
  }

  predicate Unpadded(s: string) {
    s != [] ==> !Space(s[0]) && !Space(s[|s| - 1])
  }

  predicate NoSmallLetter(s: string) {
    forall k :: 0 <= k < |s| ==> !('a' <= s[k] <= 'z')
  }

  predicate NoCapital(s: string) {
    forall k :: 0 <= k < |s| ==> !('A' <= s[k] <= 'Z')
  }

  /** A book whose names are upper-case and digests lower-case, all without padding. */
  predicate Normal(b: BookNode) {
    && (forall k :: 0 <= k < |b.formats| ==> Unpadded(b.formats[k]) && NoSmallLetter(b.formats[k]))
    && (forall k :: 0 <= k < |b.hashes| ==> Unpadded(b.hashes[k]) && NoCapital(b.hashes[k]))
  }

  lemma NormalTextsAreFixed(s: string)
    requires Unpadded(s)
    ensures Strip(s) == s
    ensures NoSmallLetter(s) ==> Isbn.UpperAll(s) == s
    ensures NoCapital(s) ==> LowerAll(s) == s
  {
    if NoSmallLetter(s) {
      forall k | 0 <= k < |s|
        ensures Isbn.UpperAll(s)[k] == s[k]
      {
      }
    }
    if NoCapital(s) {
      forall k | 0 <= k < |s|
        ensures LowerAll(s)[k] == s[k]
      {
      }
    }
  }

  lemma NormalBookIsFixed(b: BookNode)
    requires Normal(b)
    ensures forall k :: 0 <= k < |b.formats| ==> Format(b, k) == b.formats[k]
    ensures forall k :: 0 <= k < |b.hashes| ==> Digest(b, k) == b.hashes[k]
  {
    forall k | 0 <= k < |b.formats|
      ensures Format(b, k) == b.formats[k]
    {
      NormalTextsAreFixed(b.formats[k]);
    }
    forall k | 0 <= k < |b.hashes|
      ensures Digest(b, k) == b.hashes[k]
    {
      NormalTextsAreFixed(b.hashes[k]);
    }
  }

  // ---------------------------------------------------------------- the mapping

  /** Every format has a name of its own and a digest of 64 hexadecimal digits. */
  predicate Fingerprinted(b: BookNode) {
    && b.formats != [] && |b.formats| == |b.hashes|
    && (forall k :: 0 <= k < |b.formats| ==> b.formats[k] != "")
    && (forall j, k :: 0 <= j < k < |b.formats| ==> b.formats[j] != b.formats[k])
    && (forall k :: 0 <= k < |b.hashes| ==> |b.hashes[k]| == 64)
    && (forall k, m :: 0 <= k < |b.hashes| && 0 <= m < |b.hashes[k]| ==>
          '0' <= b.hashes[k][m] <= '9' || 'a' <= b.hashes[k][m] <= 'f')
  }

  /** The mapping of a book in normal form: it exists exactly for a fingerprinted book, its keys are the format
      names, and each name is mapped to the digest in its own place. */
  lemma MappingIff(b: BookNode)
    requires Normal(b)
    ensures Hashes(b).Some? <==> Fingerprinted(b)
    ensures Hashes(b).Some? ==>
              && (forall k :: 0 <= k < |b.formats| ==>
                    b.formats[k] in Hashes(b).value && Hashes(b).value[b.formats[k]] == b.hashes[k])
              && forall f :: f in Hashes(b).value ==> f in b.formats
  {
    NormalBookIsFixed(b);
    FingerprintedIff(b);
    if Complete(b) {
      forall k | 0 <= k < |b.formats|
        ensures b.formats[k] in Hashes(b).value && Hashes(b).value[b.formats[k]] == b.hashes[k]
      {
        HashMapAt(b, |b.formats|, k);
      }
      forall f | f in Hashes(b).value
        ensures f in b.formats
      {
        HashMapKeys(b, |b.formats|, f);
      }
    }
  }

  lemma FingerprintedIff(b: BookNode)
    requires forall k :: 0 <= k < |b.formats| ==> Format(b, k) == b.formats[k]
    requires forall k :: 0 <= k < |b.hashes| ==> Digest(b, k) == b.hashes[k]
    ensures Complete(b) <==> Fingerprinted(b)
  {
    if Complete(b) {
      forall k | 0 <= k < |b.hashes|
        ensures Hex64(b.hashes[k])
      {
        assert Hex64(Digest(b, k));
      }
    }
    if Fingerprinted(b) {
      forall k | 0 <= k < |b.formats|
        ensures Format(b, k) != "" && Hex64(Digest(b, k))
      {
      }
      forall j, k | 0 <= j < k < |b.formats|
        ensures Format(b, j) != Format(b, k)
      {
      }
    }
  }

  /** The files of a book: each format name with the digest in the same place. */
  function FileSet(b: BookNode): set<(string, string)>
    requires |b.formats| == |b.hashes|
  {
    set k | 0 <= k < |b.formats| :: (b.formats[k], b.hashes[k])
  }

  /** Two books in normal form have the same mapping exactly when they have the same files. */
  lemma SameMappingIff(b: BookNode, c: BookNode)
    requires Normal(b) && Normal(c) && Fingerprinted(b) && Fingerprinted(c)
    ensures Hashes(b) == Hashes(c) <==> FileSet(b) == FileSet(c)
  {
    if Hashes(b) == Hashes(c) {
      SameMappingSameFiles(b, c);
      SameMappingSameFiles(c, b);
    }
    if FileSet(b) == FileSet(c) {
      SameFilesEqualMapping(b, c);
    }
  }

  lemma SameFilesEqualMapping(b: BookNode, c: BookNode)
    requires Normal(b) && Normal(c) && Fingerprinted(b) && Fingerprinted(c) && FileSet(b) == FileSet(c)
    ensures Hashes(b) == Hashes(c)
  {
    MappingExists(b);
    MappingExists(c);
    SameFilesSameMapping(b, c);
    SameFilesSameMapping(c, b);
    assert Hashes(b).value == Hashes(c).value;
  }

  lemma MappingExists(b: BookNode)
    requires Normal(b) && Fingerprinted(b)
    ensures Hashes(b).Some?
  {
    MappingIff(b);
  }

  lemma SameMappingSameFiles(b: BookNode, c: BookNode)
    requires Normal(b) && Normal(c) && Fingerprinted(b) && Fingerprinted(c) && Hashes(b) == Hashes(c)
    ensures FileSet(b) <= FileSet(c)
  {
    MappingIff(b);
    MappingIff(c);
    forall k | 0 <= k < |b.formats|
      ensures (b.formats[k], b.hashes[k]) in FileSet(c)
    {
      assert b.formats[k] in Hashes(c).value && b.formats[k] in c.formats;
      var j :| 0 <= j < |c.formats| && c.formats[j] == b.formats[k];
      assert Hashes(c).value[c.formats[j]] == c.hashes[j];
      assert (c.formats[j], c.hashes[j]) in FileSet(c);
    }
  }

  lemma SameFilesSameMapping(b: BookNode, c: BookNode)
    requires Normal(b) && Normal(c) && Fingerprinted(b) && Fingerprinted(c) && FileSet(b) == FileSet(c)
    requires Hashes(b).Some? && Hashes(c).Some?
    ensures forall f :: f in Hashes(b).value ==> f in Hashes(c).value && Hashes(c).value[f] == Hashes(b).value[f]
  {
    MappingIff(b);
    MappingIff(c);
    forall f | f in Hashes(b).value
      ensures f in Hashes(c).value && Hashes(c).value[f] == Hashes(b).value[f]
    {
      var k :| 0 <= k < |b.formats| && b.formats[k] == f;
      assert (b.formats[k], b.hashes[k]) in FileSet(c);
      var j :| 0 <= j < |c.formats| && (c.formats[j], c.hashes[j]) == (b.formats[k], b.hashes[k]);
      assert c.formats[j] in Hashes(c).value;
    }
  }

  /** With the same formats in the same order, that means the same digests in the same order. */
  lemma SameFormatsIff(b: BookNode, c: BookNode)
    requires Normal(b) && Normal(c) && Fingerprinted(b) && Fingerprinted(c) && b.formats == c.formats
    ensures Hashes(b) == Hashes(c) <==> b.hashes == c.hashes
  {
    SameMappingIff(b, c);
    if Hashes(b) == Hashes(c) {
      forall k | 0 <= k < |b.hashes|
        ensures b.hashes[k] == c.hashes[k]
      {
        DigestInPlace(b, k);
        DigestInPlace(c, k);
      }
    }
  }

  lemma DigestInPlace(b: BookNode, k: nat)
    requires Normal(b) && Fingerprinted(b) && k < |b.formats|
    ensures Hashes(b).Some? && b.formats[k] in Hashes(b).value && Hashes(b).value[b.formats[k]] == b.hashes[k]
  {
    MappingIff(b);
  }

  /** So a cluster of such books is reported as clones exactly when every member is fingerprinted and all have the
      same files. */
  lemma ClonesIff(nodes: seq<BookNode>)
    requires nodes != [] && forall k :: 0 <= k < |nodes| ==> Normal(nodes[k])
    ensures AllClones(nodes) <==>
            && (forall k :: 0 <= k < |nodes| ==> Fingerprinted(nodes[k]))
            && (forall j, k :: 0 <= j < |nodes| && 0 <= k < |nodes| ==> FileSet(nodes[j]) == FileSet(nodes[k]))
  {
    forall k | 0 <= k < |nodes|
      ensures Hashes(nodes[k]).Some? <==> Fingerprinted(nodes[k])
    {
      MappingIff(nodes[k]);
    }
    if forall k :: 0 <= k < |nodes| ==> Fingerprinted(nodes[k]) {
      forall k | 0 <= k < |nodes|
        ensures Hashes(nodes[k]) == Hashes(nodes[0]) <==> FileSet(nodes[k]) == FileSet(nodes[0])
      {
        SameMappingIff(nodes[k], nodes[0]);
      }
    }
  }

  /** Books are complementary exactly when they are two, each lists no format twice, they have none in common, and
      between them there are an EPUB and a PDF. */
  lemma ComplementaryIff(nodes: seq<BookNode>)
    ensures Complementary(nodes) <==>
            && |nodes| == 2
            && NoRepeats(nodes[0].formats) && NoRepeats(nodes[1].formats)
            && (forall f :: !(f in nodes[0].formats && f in nodes[1].formats))
            && ("EPUB" in nodes[0].formats || "EPUB" in nodes[1].formats)
            && ("PDF" in nodes[0].formats || "PDF" in nodes[1].formats)
  {
    if |nodes| == 2 {
      assert nodes == [nodes[0], nodes[1]];
      PairComplementary(nodes[0], nodes[1]);
    }
  }

  lemma PairComplementary(b: BookNode, c: BookNode)
    ensures Complementary([b, c]) <==>
            && NoRepeats(b.formats) && NoRepeats(c.formats)
            && (forall f :: !(f in b.formats && f in c.formats))
            && ("EPUB" in b.formats || "EPUB" in c.formats) && ("PDF" in b.formats || "PDF" in c.formats)
  {
    var all := b.formats + c.formats;
    assert [b, c][..1] == [b] && [b][..0] == [];
    assert AllFormats([b]) == b.formats;
    assert AllFormats([b, c]) == all;
    forall i | 0 <= i < |b.formats|
      ensures all[i] == b.formats[i] && all[i] in b.formats
    {
    }
    forall i | 0 <= i < |c.formats|
      ensures all[|b.formats| + i] == c.formats[i] && c.formats[i] in c.formats
    {
    }
    if NoRepeats(all) {
      NoRepeatsSplit(b.formats, c.formats);
    }
  }

  lemma NoRepeatsSplit(s: seq<string>, t: seq<string>)
    requires NoRepeats(s + t)
    ensures NoRepeats(s) && NoRepeats(t) && forall f :: !(f in s && f in t)
  {
    var all := s + t;
    forall i, j | 0 <= i < j < |t|
      ensures t[i] != t[j]
    {
      assert all[|s| + i] != all[|s| + j];
    }
    forall i, j | 0 <= i < |s| && 0 <= j < |t|
      ensures s[i] != t[j]
    {
      assert all[i] != all[|s| + j];
    }
    forall i, j | 0 <= i < j < |s|
      ensures s[i] != s[j]
    {
      assert all[i] != all[j];
    }
  }

  // ---------------------------------------------------------------- case and padding

  /** The same letter in either case, or the same character. */
  predicate SameLetter(a: char, b: char) {
    || a == b
    || ('a' <= a <= 'z' && a as int - 32 == b as int)
    || ('A' <= a <= 'Z' && a as int + 32 == b as int)
  }

  predicate SameLetters(s: string, t: string) {
    |s| == |t| && forall k :: 0 <= k < |s| ==> SameLetter(s[k], t[k])
  }

  predicate Spaces(s: string) {
    forall k :: 0 <= k < |s| ==> Space(s[k])
  }

  /** `t` is `s` with letters in another case and white space put around it. */
  ghost predicate Respelled(s: string, t: string) {
    exists front: string, body: string, back: string ::
      Spaces(front) && Spaces(back) && SameLetters(s, body) && t == front + body + back
  }

  lemma {:induction false} StripFront(front: string, s: string)
    requires Spaces(front)
    ensures Strip(front + s) == Strip(s)
  {
    if front != [] {
      StripFront(front[1..], s);
      assert (front + s)[1..] == front[1..] + s;
    } else {
      assert front + s == s;
    }
  }

  lemma {:induction false} StripBack(s: string, back: string)
    requires Spaces(back)
    ensures Strip(s + back) == Strip(s)
    decreases |s| + |back|
  {
    if back == [] {
      assert s + back == s;
    } else if s == [] {
      StripFront(back, []);
      assert back + [] == back && [] + back == back;
    } else if Blank(s[0]) {
      StripBack(s[1..], back);
      assert (s + back)[1..] == s[1..] + back;
    } else {
      var n := |back| - 1;
      StripBack(s, back[..n]);
      assert (s + back)[..|s| + n] == s + back[..n];
    }
  }

  lemma {:induction false} StripRespelled(s: string, t: string)
    requires SameLetters(s, t)
    ensures SameLetters(Strip(s), Strip(t))
    decreases |s|
  {
    if s != [] && Blank(s[0]) {
      StripRespelled(s[1..], t[1..]);
    } else if s != [] && Blank(s[|s| - 1]) {
      StripRespelled(s[..|s| - 1], t[..|t| - 1]);
    }
  }

  lemma RaisedAlike(s: string, t: string)
    requires SameLetters(s, t)
    ensures Isbn.UpperAll(s) == Isbn.UpperAll(t) && LowerAll(s) == LowerAll(t)
  {
    assert Isbn.UpperAll(s) == Isbn.UpperAll(t);
    assert LowerAll(s) == LowerAll(t);
  }

  lemma RespelledAlike(s: string, t: string)
    requires Respelled(s, t)
    ensures Isbn.UpperAll(Strip(s)) == Isbn.UpperAll(Strip(t)) && LowerAll(Strip(s)) == LowerAll(Strip(t))
  {
    var front, body, back :| Spaces(front) && Spaces(back) && SameLetters(s, body) && t == front + body + back;
    StripBack(front + body, back);
    StripFront(front, body);
    StripRespelled(s, body);
    RaisedAlike(Strip(s), Strip(body));
  }

  /** Changing the case of letters or putting white space around a format name or a digest changes no mapping. */
  lemma RespellingKeepsMapping(b: BookNode, c: BookNode)
    requires |b.formats| == |c.formats| && |b.hashes| == |c.hashes|
    requires forall k :: 0 <= k < |b.formats| ==> Respelled(b.formats[k], c.formats[k])
    requires forall k :: 0 <= k < |b.hashes| ==> Respelled(b.hashes[k], c.hashes[k])
    ensures Hashes(b) == Hashes(c)
  {
    forall k | 0 <= k < |b.formats|
      ensures Format(b, k) == Format(c, k)
    {
      RespelledAlike(b.formats[k], c.formats[k]);
    }
    forall k | 0 <= k < |b.hashes|
      ensures Digest(b, k) == Digest(c, k)
    {
      RespelledAlike(b.hashes[k], c.hashes[k]);
    }
    if Complete(b) {
      HashMapAlike(b, c, |b.formats|);
    }
  }

  lemma {:induction false} HashMapAlike(b: BookNode, c: BookNode, n: nat)
    requires n <= |b.formats| == |c.formats| && |b.formats| == |b.hashes| == |c.hashes|
    requires forall k :: 0 <= k < |b.formats| ==> Format(b, k) == Format(c, k)
    requires forall k :: 0 <= k < |b.hashes| ==> Digest(b, k) == Digest(c, k)
    ensures HashMap(b, n) == HashMap(c, n)
  {
    if n > 0 {
      HashMapAlike(b, c, n - 1);
    }
  }
}
