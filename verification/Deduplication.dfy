/** The clustering engine itself: it files the books, unites each group, reads the classes back and
    classifies every class of two or more books. */
module Deduplication {
  import opened Metadata
  import opened DisjointSets
  import opened Clusters
  import Isbn

  // ---------------------------------------------------------------- complete hashes

  predicate Blank(c: char) {
    c == ' ' || 9 <= c as int <= 13 || 28 <= c as int <= 31
  }

  function Strip(s: string): string {
    if s != [] && Blank(s[0]) then Strip(s[1..])
    else if s != [] && Blank(s[|s| - 1]) then Strip(s[..|s| - 1])
    else s
  }

  function Lower(c: char): char {
    if 'A' <= c <= 'Z' then (c as int + 32) as char else c
  }

  function LowerAll(s: string): string {
    seq(|s|, k requires 0 <= k < |s| => Lower(s[k]))
  }

  predicate Hex64(s: string) {
    |s| == 64 && forall k :: 0 <= k < 64 ==> Isbn.IsDigit(s[k]) || 'a' <= s[k] <= 'f'
  }

  function Format(b: BookNode, k: nat): string
    requires k < |b.formats|
  {
    Isbn.UpperAll(Strip(b.formats[k]))
  }

  function Digest(b: BookNode, k: nat): string
    requires k < |b.hashes|
  {
    LowerAll(Strip(b.hashes[k]))
  }

  /** Every format has a name of its own and a SHA-256 digest. */
  ghost predicate Complete(b: BookNode) {
    && b.formats != [] && |b.formats| == |b.hashes|
    && (forall k :: 0 <= k < |b.formats| ==> Format(b, k) != "" && Hex64(Digest(b, k)))
    && (forall j, k :: 0 <= j < k < |b.formats| ==> Format(b, j) != Format(b, k))
  }

  ghost function HashMap(b: BookNode, n: nat): map<string, string>
    requires n <= |b.formats| && |b.formats| == |b.hashes|
  {
    if n == 0 then map[] else HashMap(b, n - 1)[Format(b, n - 1) := Digest(b, n - 1)]
  }

  ghost function Hashes(b: BookNode): Option<map<string, string>> {
    if Complete(b) then Some(HashMap(b, |b.formats|)) else None
  }

  lemma {:induction false} HashMapKeys(b: BookNode, n: nat, f: string)
    requires n <= |b.formats| && |b.formats| == |b.hashes|
    ensures f in HashMap(b, n) <==> exists k :: 0 <= k < n && Format(b, k) == f
  {
    if n > 0 {
      HashMapKeys(b, n - 1, f);
    }
  }

  /** The mapping `_complete_format_hashes` builds, or nothing. */
  method CompleteFormatHashes(b: BookNode) returns (r: Option<map<string, string>>)
    ensures r == Hashes(b)
  {
    if b.formats == [] || |b.formats| != |b.hashes| {
      return None;
    }
    var mapping: map<string, string> := map[];
    for k := 0 to |b.formats|
      invariant mapping == HashMap(b, k)
      invariant forall m :: 0 <= m < k ==> Format(b, m) != "" && Hex64(Digest(b, m))
      invariant forall j, m :: 0 <= j < m < k ==> Format(b, j) != Format(b, m)
    {
      var format, digest := Format(b, k), Digest(b, k);
      HashMapKeys(b, k, format);
      if format == "" || !Hex64(digest) || format in mapping {
        return None;
      }
      mapping := mapping[format := digest];
    }
    r := Some(mapping);
  }

  lemma {:induction false} HashMapAt(b: BookNode, n: nat, k: nat)
    requires Complete(b) && k < n <= |b.formats|
    ensures Format(b, k) in HashMap(b, n) && HashMap(b, n)[Format(b, k)] == Digest(b, k)
  {
    if k < n - 1 {
      HashMapAt(b, n - 1, k);
    }
  }

  /** A file of `c` with the format and digest of file `k` of `b`. */
  ghost predicate HasTwin(b: BookNode, k: nat, c: BookNode)
    requires Complete(b) && Complete(c) && k < |b.formats|
  {
    exists j :: 0 <= j < |c.formats| && Format(c, j) == Format(b, k) && Digest(c, j) == Digest(b, k)
  }

  ghost predicate AllHaveTwins(b: BookNode, c: BookNode)
    requires Complete(b) && Complete(c)
  {
    forall k :: 0 <= k < |b.formats| ==> HasTwin(b, k, c)
  }

  lemma TwinOf(b: BookNode, k: nat, c: BookNode)
    requires Complete(b) && Complete(c) && k < |b.formats| && Hashes(b) == Hashes(c)
    ensures HasTwin(b, k, c)
  {
    HashMapAt(b, |b.formats|, k);
    HashMapKeys(c, |c.formats|, Format(b, k));
    var j :| 0 <= j < |c.formats| && Format(c, j) == Format(b, k);
    HashMapAt(c, |c.formats|, j);
  }

  lemma TwinsInclude(b: BookNode, c: BookNode, f: string)
    requires Complete(b) && Complete(c) && AllHaveTwins(b, c)
    requires f in HashMap(b, |b.formats|)
    ensures f in HashMap(c, |c.formats|) && HashMap(c, |c.formats|)[f] == HashMap(b, |b.formats|)[f]
  {
    HashMapKeys(b, |b.formats|, f);
    var k :| 0 <= k < |b.formats| && Format(b, k) == f;
    assert HasTwin(b, k, c);
    var j :| 0 <= j < |c.formats| && Format(c, j) == Format(b, k) && Digest(c, j) == Digest(b, k);
    HashMapAt(b, |b.formats|, k);
    HashMapAt(c, |c.formats|, j);
  }

  /** Two complete books have equal mappings exactly when each file of either has a twin in the other. */
  lemma EqualHashesIff(b: BookNode, c: BookNode)
    requires Complete(b) && Complete(c)
    ensures Hashes(b) == Hashes(c) <==>
            AllHaveTwins(b, c) && AllHaveTwins(c, b)
  {
    if Hashes(b) == Hashes(c) {
      forall k | 0 <= k < |b.formats|
        ensures HasTwin(b, k, c)
      {
        TwinOf(b, k, c);
      }
      forall k | 0 <= k < |c.formats|
        ensures HasTwin(c, k, b)
      {
        TwinOf(c, k, b);
      }
    }
    if AllHaveTwins(b, c) && AllHaveTwins(c, b) {
      var m, n := HashMap(b, |b.formats|), HashMap(c, |c.formats|);
      forall f | f in m || f in n
        ensures f in m && f in n && m[f] == n[f]
      {
        if f in m {
          TwinsInclude(b, c, f);
        } else {
          TwinsInclude(c, b, f);
        }
      }
      assert m == n;
    }
  }

  // ---------------------------------------------------------------- classifying a cluster

  /** Every member has a complete mapping, and it is the same mapping. */
  ghost predicate AllClones(nodes: seq<BookNode>) {
    forall k :: 0 <= k < |nodes| ==> Hashes(nodes[k]).Some? && Hashes(nodes[k]) == Hashes(nodes[0])
  }

  function AllFormats(nodes: seq<BookNode>): seq<string> {
    if nodes == [] then [] else AllFormats(nodes[..|nodes| - 1]) + nodes[|nodes| - 1].formats
  }

  predicate NoRepeats(s: seq<string>) {
    forall i, j :: 0 <= i < j < |s| ==> s[i] != s[j]
  }

  /** An EPUB and a PDF in two books that have no format in common. */
  predicate Complementary(nodes: seq<BookNode>) {
    |nodes| == 2 && NoRepeats(AllFormats(nodes)) && "EPUB" in AllFormats(nodes) && "PDF" in AllFormats(nodes)
  }

  method Classify(nodes: seq<BookNode>) returns (kind: Kind)
    requires nodes != []
    ensures kind.Clone? <==> AllClones(nodes)
    ensures kind.Multiformat? <==> !AllClones(nodes) && Complementary(nodes)
  {
    var first := CompleteFormatHashes(nodes[0]);
    var clone := first.Some?;
    for k := 1 to |nodes|
      invariant clone <==> forall m :: 0 <= m < k ==> Hashes(nodes[m]).Some? && Hashes(nodes[m]) == Hashes(nodes[0])
    {
      var mapping := CompleteFormatHashes(nodes[k]);
      clone := clone && mapping.Some? && mapping == first;
    }
    kind := if clone then Clone else if Complementary(nodes) then Multiformat else Kind.Edition;
  }

  predicate NoEpub(nodes: seq<BookNode>) {
    forall k :: 0 <= k < |nodes| ==> "EPUB" !in nodes[k].formats
  }

  /** The first member that has an EPUB, or else the smallest id. */
  ghost predicate Preferred(nodes: seq<BookNode>, id: int) {
    && id in IdsOf(nodes)
    && (forall k :: 0 <= k < |nodes| && "EPUB" in nodes[k].formats && NoEpub(nodes[..k]) ==> id == nodes[k].id)
    && (NoEpub(nodes) ==> forall k :: 0 <= k < |nodes| ==> id <= nodes[k].id)
  }

  method PickCanonical(nodes: seq<BookNode>) returns (id: int)
    requires nodes != []
    ensures Preferred(nodes, id)
  {
    id := nodes[0].id;
    assert IdsOf(nodes)[0] == id;
    for k := 1 to |nodes|
      invariant id in IdsOf(nodes) && forall j :: 0 <= j < k ==> id <= nodes[j].id
    {
      assert IdsOf(nodes)[k] == nodes[k].id;
      id := if nodes[k].id < id then nodes[k].id else id;
    }
    for k := 0 to |nodes|
      invariant id in IdsOf(nodes) && forall j :: 0 <= j < k ==> "EPUB" !in nodes[j].formats
      invariant forall j :: 0 <= j < |nodes| ==> id <= nodes[j].id
    {
      if "EPUB" in nodes[k].formats {
        assert IdsOf(nodes)[k] == nodes[k].id;
        return nodes[k].id;
      }
    }
  }

  // ---------------------------------------------------------------- filing the books

  lemma NoIsbn()
    ensures Isbn.Canonical13("") == None && !Isbn.MisplacedX("")
  {
  }

  /** The canonical ISBN a book is filed under; converting a misplaced X raises. */
  method IsbnOf(isbn: string, ghost canon: string -> Option<string>, ghost misplaced: string -> bool)
    returns (raised: bool, key: Option<string>)
    requires canon == Isbn.Canonical13 && misplaced == Isbn.MisplacedX
    ensures raised <==> misplaced(isbn)
    ensures !raised ==> key == canon(isbn)
  {
    raised, key := false, None;
    if isbn == "" {
      NoIsbn();
    } else {
      Isbn.ImplementationsAgree(isbn);
      match Isbn.CleansedIsbn13(isbn) {
        case Raised => raised := true;
        case Returned(k) => key := k;
      }
    }
  }

  ghost predicate AllKnown(rep: map<int, int>, books: seq<BookNode>, n: nat)
    requires n <= |books|
  {
    forall p :: 0 <= p < n ==> books[p].id in rep
  }

  ghost predicate NoneMisplaced(misplaced: string -> bool, books: seq<BookNode>, n: nat)
    requires n <= |books|
  {
    forall p :: 0 <= p < n ==> !misplaced(books[p].isbn)
  }

  /** Register one book with the union-find and convert its ISBN. */
  method Meet(books: seq<BookNode>, n: nat, dsu: DisjointSetUnion, ghost canon: string -> Option<string>,
              ghost misplaced: string -> bool)
    returns (raised: bool, key: Option<string>)
    requires canon == Isbn.Canonical13 && misplaced == Isbn.MisplacedX && dsu.Valid()
    requires n < |books| && AllKnown(dsu.rep, books, n) && NoneMisplaced(misplaced, books, n)
    modifies dsu
    ensures dsu.Valid() && dsu.links == old(dsu.links) && AllKnown(dsu.rep, books, n + 1)
    ensures raised <==> misplaced(books[n].isbn)
    ensures !raised ==> key == canon(books[n].isbn) && NoneMisplaced(misplaced, books, n + 1)
  {
    var _ := dsu.Find(books[n].id);
    raised, key := IsbnOf(books[n].isbn, canon, misplaced);
  }

  method Gather(books: seq<BookNode>, dsu: DisjointSetUnion, ghost canon: string -> Option<string>,
                ghost misplaced: string -> bool)
    returns (raised: bool, byIsbn: seq<(string, seq<int>)>, byTitle: seq<((string, string), seq<int>)>)
    requires canon == Isbn.Canonical13 && misplaced == Isbn.MisplacedX && dsu.Valid() && dsu.links == {}
    modifies dsu
    ensures dsu.Valid() && dsu.links == {}
    ensures raised <==> !NoneMisplaced(misplaced, books, |books|)
    ensures !raised ==> BothIndexed(canon, books, |books|, byIsbn, byTitle) && AllKnown(dsu.rep, books, |books|)
  {
    raised, byIsbn, byTitle := false, [], [];
    for n := 0 to |books|
      invariant dsu.Valid() && dsu.links == {} && !raised && AllKnown(dsu.rep, books, n)
      invariant NoneMisplaced(misplaced, books, n) && BothIndexed(canon, books, n, byIsbn, byTitle)
    {
      var key;
      raised, key := Meet(books, n, dsu, canon, misplaced);
      if raised {
        return;
      }
      byIsbn, byTitle := FiledUnder(byIsbn, key, books[n].id), FiledUnder(byTitle, books[n].titleKey, books[n].id);
    }
  }

  // ---------------------------------------------------------------- uniting the groups

  method UnionGroup(dsu: DisjointSetUnion, group: seq<int>)
    requires dsu.Valid()
    modifies dsu
    ensures dsu.Valid() && dsu.links == old(dsu.links) + Star(group) && old(dsu.rep).Keys <= dsu.rep.Keys
  {
    if |group| > 1 {
      for n := 1 to |group|
        invariant dsu.Valid() && dsu.links == old(dsu.links) + Star(group[..n]) && old(dsu.rep).Keys <= dsu.rep.Keys
      {
        ghost var before := dsu.rep;
        dsu.Union(group[0], group[n]);
        UnitedKeys(before, dsu.rep, group[0], group[n]);
        assert group[..n + 1][..n] == group[..n];
      }
      assert group[..|group|] == group;
    }
  }

  method UnionGroups<K>(dsu: DisjointSetUnion, index: seq<(K, seq<int>)>)
    requires dsu.Valid()
    modifies dsu
    ensures dsu.Valid() && dsu.links == old(dsu.links) + Stars(index) && old(dsu.rep).Keys <= dsu.rep.Keys
  {
    for n := 0 to |index|
      invariant dsu.Valid() && dsu.links == old(dsu.links) + Stars(index[..n]) && old(dsu.rep).Keys <= dsu.rep.Keys
    {
      UnionGroup(dsu, index[n].1);
      assert index[..n + 1][..n] == index[..n];
    }
    assert index[..|index|] == index;
  }

  // ---------------------------------------------------------------- reading the classes back

  ghost function RootKeys(books: seq<BookNode>, rep: map<int, int>): seq<Option<int>>
    requires AllKnown(rep, books, |books|)
  {
    seq(|books|, p requires 0 <= p < |books| => Some(rep[books[p].id]))
  }

  method GroupByRoot(books: seq<BookNode>, dsu: DisjointSetUnion) returns (byRoot: seq<(int, seq<int>)>)
    requires dsu.Valid() && AllKnown(dsu.rep, books, |books|)
    modifies dsu
    ensures dsu.Valid() && dsu.rep == old(dsu.rep) && dsu.links == old(dsu.links)
    ensures byRoot == Dictionary(RootKeys(books, dsu.rep), IdsOf(books), |books|)
  {
    byRoot := [];
    for n := 0 to |books|
      invariant dsu.Valid() && dsu.rep == old(dsu.rep) && dsu.links == old(dsu.links)
      invariant byRoot == Dictionary(RootKeys(books, dsu.rep), IdsOf(books), n)
    {
      var root := dsu.Find(books[n].id);
      byRoot := FiledUnder(byRoot, Some(root), books[n].id);
    }
  }

  ghost predicate SameClosure(links: set<(int, int)>, links': set<(int, int)>) {
    forall x, y :: Connected(links, x, y) <==> Connected(links', x, y)
  }

  /** The ids filed under the root of `x` are the component of `x`. */
  lemma {:induction false} ClassIsComponent(books: seq<BookNode>, rep: map<int, int>, links: set<(int, int)>, x: int,
                                            n: nat)
    requires n <= |books| && AllKnown(rep, books, |books|) && x in rep
    requires forall p :: 0 <= p < |books| ==> (rep[books[p].id] == rep[x] <==> Connected(links, x, books[p].id))
    ensures Select(Entries(RootKeys(books, rep), IdsOf(books), n), rep[x]) == Component(links, books, n, x)
  {
    if n > 0 {
      ClassIsComponent(books, rep, links, x, n - 1);
      var keys := RootKeys(books, rep);
      var before, after := Entries(keys, IdsOf(books), n - 1), Entries(keys, IdsOf(books), n);
      assert after == before + [(rep[books[n - 1].id], books[n - 1].id)];
      assert after[..|after| - 1] == before;
    }
  }

  /** Every group read back is the component of each of its members, and every book is in its group. */
  lemma GroupsAreComponents(books: seq<BookNode>, dsu: DisjointSetUnion, byRoot: seq<(int, seq<int>)>,
                            links: set<(int, int)>, p: nat)
    requires dsu.Valid() && AllKnown(dsu.rep, books, |books|) && p < |books|
    requires byRoot == Dictionary(RootKeys(books, dsu.rep), IdsOf(books), |books|)
    requires SameClosure(dsu.links, links)
    ensures HasGroup(byRoot, dsu.rep[books[p].id], Component(links, books, |books|, books[p].id))
  {
    var x := books[p].id;
    forall q | 0 <= q < |books|
      ensures dsu.rep[books[q].id] == dsu.rep[x] <==> Connected(links, x, books[q].id)
    {
      dsu.ClassesAreClosure(x, books[q].id);
      assert Connected(dsu.links, x, books[q].id) <==> Connected(links, x, books[q].id);
    }
    ClassIsComponent(books, dsu.rep, links, x, |books|);
    GroupOf(RootKeys(books, dsu.rep), IdsOf(books), p);
  }

  ghost predicate HasGroup(index: seq<(int, seq<int>)>, root: int, ids: seq<int>) {
    exists i :: 0 <= i < |index| && index[i] == (root, ids)
  }

  lemma GroupOf(keys: seq<Option<int>>, ids: seq<int>, p: nat)
    requires p < |keys| == |ids| && keys[p].Some?
    ensures HasGroup(Dictionary(keys, ids, |keys|), keys[p].value, Select(Entries(keys, ids, |keys|), keys[p].value))
  {
    var index, entries := Dictionary(keys, ids, |keys|), Entries(keys, ids, |keys|);
    DictionaryIndexed(keys, ids, |keys|);
    EntryIff(keys, ids, |keys|, keys[p].value, ids[p]);
    var e :| 0 <= e < |entries| && entries[e] == (keys[p].value, ids[p]);
    assert HasKey(index, entries[e].0);
    var i :| 0 <= i < |index| && index[i].0 == keys[p].value;
    assert index[i] == (keys[p].value, Select(entries, keys[p].value));
  }

  lemma EachGroup(books: seq<BookNode>, dsu: DisjointSetUnion, byRoot: seq<(int, seq<int>)>,
                  links: set<(int, int)>, i: nat, x: int)
    requires dsu.Valid() && AllKnown(dsu.rep, books, |books|)
    requires byRoot == Dictionary(RootKeys(books, dsu.rep), IdsOf(books), |books|)
    requires SameClosure(dsu.links, links)
    requires i < |byRoot| && x in byRoot[i].1
    ensures byRoot[i].1 == Component(links, books, |books|, x) && x in dsu.rep && dsu.rep[x] == byRoot[i].0
  {
    DictionaryIndexed(RootKeys(books, dsu.rep), IdsOf(books), |books|);
    var p := KeyHolder(byRoot, RootKeys(books, dsu.rep), IdsOf(books), i, x);
    GroupsAreComponents(books, dsu, byRoot, links, p);
    var j :| 0 <= j < |byRoot| && byRoot[j] == (dsu.rep[books[p].id], Component(links, books, |books|, books[p].id));
    assert j == i;
  }

  // ---------------------------------------------------------------- reporting

  /** The groups of two or more. */
  ghost function Kept(index: seq<(int, seq<int>)>, n: nat): seq<(int, seq<int>)>
    requires n <= |index|
  {
    if n == 0 then [] else Kept(index, n - 1) + if |index[n - 1].1| > 1 then [index[n - 1]] else []
  }

  lemma {:induction false} KeptFrom(index: seq<(int, seq<int>)>, n: nat, k: nat) returns (i: nat)
    requires n <= |index| && k < |Kept(index, n)|
    ensures i < n && Kept(index, n)[k] == index[i] && |index[i].1| > 1
  {
    if k < |Kept(index, n - 1)| {
      i := KeptFrom(index, n - 1, k);
    } else {
      i := n - 1;
    }
  }

  lemma {:induction false} KeptAll(index: seq<(int, seq<int>)>, n: nat, i: nat) returns (k: nat)
    requires i < n <= |index| && |index[i].1| > 1
    ensures k < |Kept(index, n)| && Kept(index, n)[k] == index[i]
  {
    if i < n - 1 {
      k := KeptAll(index, n - 1, i);
    } else {
      k := |Kept(index, n)| - 1;
    }
  }

  lemma {:induction false} KeptDistinct(index: seq<(int, seq<int>)>, n: nat, j: nat, k: nat)
    requires n <= |index| && forall i, m :: 0 <= i < m < |index| ==> index[i].0 != index[m].0
    requires j < k < |Kept(index, n)|
    ensures Kept(index, n)[j].0 != Kept(index, n)[k].0
  {
    if k < |Kept(index, n - 1)| {
      KeptDistinct(index, n - 1, j, k);
    } else {
      var i := KeptFrom(index, n - 1, j);
    }
  }

  /** The node under which an id is found: the last book of the list that has it. */
  function ById(books: seq<BookNode>, n: nat): map<int, BookNode>
    requires n <= |books|
  {
    if n == 0 then map[] else ById(books, n - 1)[books[n - 1].id := books[n - 1]]
  }

  lemma {:induction false} ByIdFinds(books: seq<BookNode>, n: nat, p: nat)
    requires p < n <= |books|
    ensures books[p].id in ById(books, n) && ById(books, n)[books[p].id].id == books[p].id
    ensures (forall q :: p < q < n ==> books[q].id != books[p].id) ==> ById(books, n)[books[p].id] == books[p]
  {
    if p < n - 1 {
      ByIdFinds(books, n - 1, p);
    }
  }

  function Nodes(byId: map<int, BookNode>, ids: seq<int>): seq<BookNode>
    requires forall k :: 0 <= k < |ids| ==> ids[k] in byId
  {
    seq(|ids|, k requires 0 <= k < |ids| => byId[ids[k]])
  }

  /** The kind and the canonical book of a cluster are those of its members. */
  ghost predicate Classified(byId: map<int, BookNode>, c: Cluster) {
    && c.members != [] && (forall k :: 0 <= k < |c.members| ==> c.members[k] in byId)
    && var nodes := Nodes(byId, c.members);
       && (c.kind.Clone? <==> AllClones(nodes))
       && (c.kind.Multiformat? <==> !AllClones(nodes) && Complementary(nodes))
       && Preferred(nodes, c.canonical)
  }

  method Report(byId: map<int, BookNode>, byRoot: seq<(int, seq<int>)>) returns (clusters: seq<Cluster>)
    requires forall i, k :: 0 <= i < |byRoot| && 0 <= k < |byRoot[i].1| ==> byRoot[i].1[k] in byId
    ensures |clusters| == |Kept(byRoot, |byRoot|)|
    ensures forall k :: 0 <= k < |clusters| ==>
              (clusters[k].root, clusters[k].members) == Kept(byRoot, |byRoot|)[k] && Classified(byId, clusters[k])
  {
    clusters := [];
    for n := 0 to |byRoot|
      invariant |clusters| == |Kept(byRoot, n)|
      invariant forall k :: 0 <= k < |clusters| ==>
                  (clusters[k].root, clusters[k].members) == Kept(byRoot, n)[k] && Classified(byId, clusters[k])
    {
      var (root, ids) := byRoot[n];
      if |ids| > 1 {
        var nodes := Nodes(byId, ids);
        var kind := Classify(nodes);
        var canonical := PickCanonical(nodes);
        clusters := clusters + [Cluster(root, kind, canonical, ids)];
      }
    }
  }

  lemma ReportedAreComponents(books: seq<BookNode>, dsu: DisjointSetUnion, byRoot: seq<(int, seq<int>)>,
                              links: set<(int, int)>, clusters: seq<Cluster>)
    requires dsu.Valid() && AllKnown(dsu.rep, books, |books|)
    requires byRoot == Dictionary(RootKeys(books, dsu.rep), IdsOf(books), |books|)
    requires SameClosure(dsu.links, links)
    requires |clusters| == |Kept(byRoot, |byRoot|)|
    requires forall k :: 0 <= k < |clusters| ==> (clusters[k].root, clusters[k].members) == Kept(byRoot, |byRoot|)[k]
    ensures AreComponents(links, books, clusters)
  {
    forall k | 0 <= k < |clusters|
      ensures IsComponent(links, books, clusters[k].members)
      ensures forall x :: x in clusters[k].members ==> x in dsu.rep && dsu.rep[x] == clusters[k].root
    {
      var i := KeptFrom(byRoot, |byRoot|, k);
      forall x | x in clusters[k].members
        ensures clusters[k].members == Component(links, books, |books|, x)
        ensures x in dsu.rep && dsu.rep[x] == clusters[k].root
      {
        EachGroup(books, dsu, byRoot, links, i, x);
      }
    }
    forall p | 0 <= p < |books| && |Component(links, books, |books|, books[p].id)| > 1
      ensures Clustered(clusters, books[p].id)
    {
      GroupsAreComponents(books, dsu, byRoot, links, p);
      var i :| 0 <= i < |byRoot| && byRoot[i] == (dsu.rep[books[p].id], Component(links, books, |books|, books[p].id));
      var k := KeptAll(byRoot, |byRoot|, i);
      InOwnComponent(links, books, |books|, p);
      assert books[p].id in clusters[k].members;
    }
    forall j, k | 0 <= j < k < |clusters|
      ensures forall x :: x in clusters[j].members ==> x !in clusters[k].members
    {
      DictionaryIndexed(RootKeys(books, dsu.rep), IdsOf(books), |books|);
      KeptDistinct(byRoot, |byRoot|, j, k);
    }
  }

  lemma {:induction false} InOwnComponent(links: set<(int, int)>, books: seq<BookNode>, n: nat, p: nat)
    requires p < n <= |books|
    ensures books[p].id in Component(links, books, n, books[p].id)
  {
    ConnectedReflexive(links, books[p].id);
    if p < n - 1 {
      InOwnComponent(links, books, n - 1, p);
    }
  }

  lemma GroupedIdsKnown(books: seq<BookNode>, rep: map<int, int>, byRoot: seq<(int, seq<int>)>, i: nat, k: nat)
    requires AllKnown(rep, books, |books|) && byRoot == Dictionary(RootKeys(books, rep), IdsOf(books), |books|)
    requires i < |byRoot| && k < |byRoot[i].1|
    ensures byRoot[i].1[k] in ById(books, |books|)
  {
    DictionaryIndexed(RootKeys(books, rep), IdsOf(books), |books|);
    var p := KeyHolder(byRoot, RootKeys(books, rep), IdsOf(books), i, byRoot[i].1[k]);
    assert books[p].id == byRoot[i].1[k];
    ByIdFinds(books, |books|, p);
  }

  /** Unite the groups of both dictionaries. */
  method UniteSharing(books: seq<BookNode>, dsu: DisjointSetUnion, byIsbn: seq<(string, seq<int>)>,
                      byTitle: seq<((string, string), seq<int>)>, ghost canon: string -> Option<string>)
    requires dsu.Valid() && dsu.links == {} && AllKnown(dsu.rep, books, |books|)
    requires BothIndexed(canon, books, |books|, byIsbn, byTitle)
    modifies dsu
    ensures dsu.Valid() && AllKnown(dsu.rep, books, |books|) && SameClosure(dsu.links, SharedLinks(canon, books))
  {
    UnionGroups(dsu, byIsbn);
    UnionGroups(dsu, byTitle);
    assert dsu.links == Stars(byIsbn) + Stars(byTitle);
    forall x, y
      ensures Connected(dsu.links, x, y) <==> Connected(SharedLinks(canon, books), x, y)
    {
      UnionsMeanSharing(canon, books, byIsbn, byTitle, x, y);
    }
  }

  /** Read the classes back and report those of two or more books. */
  method ReadBack(books: seq<BookNode>, dsu: DisjointSetUnion, ghost links: set<(int, int)>)
    returns (clusters: seq<Cluster>)
    requires dsu.Valid() && AllKnown(dsu.rep, books, |books|) && SameClosure(dsu.links, links)
    modifies dsu
    ensures AreComponents(links, books, clusters)
    ensures forall k :: 0 <= k < |clusters| ==> Classified(ById(books, |books|), clusters[k])
  {
    var byRoot := GroupByRoot(books, dsu);
    forall i, k | 0 <= i < |byRoot| && 0 <= k < |byRoot[i].1|
      ensures byRoot[i].1[k] in ById(books, |books|)
    {
      GroupedIdsKnown(books, dsu.rep, byRoot, i, k);
    }
    clusters := Report(ById(books, |books|), byRoot);
    ReportedAreComponents(books, dsu, byRoot, links, clusters);
  }

  /** The clusters reported are exactly the connected components, of two or more books, of "same canonical
      ISBN or same author and title"; each is classified by its members; and nothing is reported, because
      the conversion raises, exactly when some book's ISBN has a misplaced X. */
  method ClusterDuplicates(books: seq<BookNode>) returns (r: Outcome)
    ensures r.Raised? <==> exists p :: 0 <= p < |books| && Isbn.MisplacedX(books[p].isbn)
    ensures r.Reported? ==> AreComponents(SharedLinks(Isbn.Canonical13, books), books, r.clusters)
    ensures r.Reported? ==> forall k :: 0 <= k < |r.clusters| ==> Classified(ById(books, |books|), r.clusters[k])
  {
    ghost var canon, misplaced := Isbn.Canonical13, Isbn.MisplacedX;
    var dsu := new DisjointSetUnion();
    var raised, byIsbn, byTitle := Gather(books, dsu, canon, misplaced);
    if raised {
      return Outcome.Raised;
    }
    UniteSharing(books, dsu, byIsbn, byTitle, canon);
    var clusters := ReadBack(books, dsu, SharedLinks(canon, books));
    r := Reported(clusters);
  }
}
