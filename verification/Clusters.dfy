/** Duplicate clustering: books that share a canonical ISBN or an author-and-title key, gathered with
    union-find into the connected components of that relation. */
module Clusters {
  import opened Metadata
  import opened DisjointSets

  /** A book as the clustering sees it. `titleKey` is the pair of cleaned author and lower-case cleaned
      title, missing when the cleaned title is empty; a missing ISBN is the empty string. */
  datatype BookNode = BookNode(id: int, isbn: string, titleKey: Option<(string, string)>,
                               formats: seq<string>, hashes: seq<string>)

  datatype Kind = Clone | Multiformat | Edition

  datatype Cluster = Cluster(root: int, kind: Kind, canonical: int, members: seq<int>)

  datatype Outcome = Raised | Reported(clusters: seq<Cluster>)

  // ---------------------------------------------------------------- what belongs together

  /** The two books have the same ISBN, as `canon` puts it, or the same author and title. */
  predicate Shares(canon: string -> Option<string>, b: BookNode, c: BookNode) {
    || (canon(b.isbn).Some? && canon(b.isbn) == canon(c.isbn))
    || (b.titleKey.Some? && b.titleKey == c.titleKey)
  }

  ghost function SharedLinks(canon: string -> Option<string>, books: seq<BookNode>): set<(int, int)> {
    set p, q | 0 <= p < |books| && 0 <= q < |books| && Shares(canon, books[p], books[q]) :: (books[p].id, books[q].id)
  }

  /** The ids, in the order of the list, of those of the first `n` books that are connected to `x`. */
  ghost function Component(links: set<(int, int)>, books: seq<BookNode>, n: nat, x: int): seq<int>
    requires n <= |books|
  {
    if n == 0 then []
    else Component(links, books, n - 1, x) + if Connected(links, x, books[n - 1].id) then [books[n - 1].id] else []
  }

  /** The clusters are exactly the connected components of two or more books. */
  ghost predicate AreComponents(links: set<(int, int)>, books: seq<BookNode>, clusters: seq<Cluster>) {
    && (forall k :: 0 <= k < |clusters| ==> IsComponent(links, books, clusters[k].members))
    && (forall p :: 0 <= p < |books| && |Component(links, books, |books|, books[p].id)| > 1 ==>
          Clustered(clusters, books[p].id))
    && (forall j, k :: 0 <= j < k < |clusters| ==> forall x :: x in clusters[j].members ==> x !in clusters[k].members)
  }

  ghost predicate IsComponent(links: set<(int, int)>, books: seq<BookNode>, members: seq<int>) {
    |members| > 1 && forall x :: x in members ==> members == Component(links, books, |books|, x)
  }

  ghost predicate Clustered(clusters: seq<Cluster>, x: int) {
    exists k :: 0 <= k < |clusters| && x in clusters[k].members
  }

  // ---------------------------------------------------------------- dictionaries of lists

  /** A dictionary of lists in insertion order, as the entries filed into it so far determine it. */
  ghost predicate Indexed<K>(index: seq<(K, seq<int>)>, entries: seq<(K, int)>) {
    && (forall i, j :: 0 <= i < j < |index| ==> index[i].0 != index[j].0)
    && (forall i :: 0 <= i < |index| ==> index[i].1 == Select(entries, index[i].0) && index[i].1 != [])
    && (forall p :: 0 <= p < |entries| ==> HasKey(index, entries[p].0))
  }

  ghost predicate HasKey<K>(index: seq<(K, seq<int>)>, k: K) {
    exists i :: 0 <= i < |index| && index[i].0 == k
  }

  /** The ids filed under a key, in order. */
  ghost function Select<K>(entries: seq<(K, int)>, k: K): seq<int> {
    if entries == [] then []
    else
      var n := |entries| - 1;
      Select(entries[..n], k) + if entries[n].0 == k then [entries[n].1] else []
  }

  lemma {:induction false} SelectMember<K>(entries: seq<(K, int)>, k: K, x: int)
    ensures x in Select(entries, k) <==> (k, x) in entries
  {
    if entries != [] {
      var n := |entries| - 1;
      SelectMember(entries[..n], k, x);
      assert entries == entries[..n] + [entries[n]];
    }
  }

  /** `index[key].append(id)`. */
  function Filed<K(==)>(index: seq<(K, seq<int>)>, key: K, id: int): seq<(K, seq<int>)> {
    if index == [] then [(key, [id])]
    else if index[0].0 == key then [(key, index[0].1 + [id])] + index[1..]
    else [index[0]] + Filed(index[1..], key, id)
  }

  lemma {:induction false} FiledNew<K>(index: seq<(K, seq<int>)>, key: K, id: int)
    requires forall i :: 0 <= i < |index| ==> index[i].0 != key
    ensures Filed(index, key, id) == index + [(key, [id])]
  {
    if index != [] {
      FiledNew(index[1..], key, id);
    }
  }

  lemma {:induction false} FiledAgain<K>(index: seq<(K, seq<int>)>, key: K, id: int, i: nat)
    requires i < |index| && index[i].0 == key && forall j :: 0 <= j < i ==> index[j].0 != key
    ensures Filed(index, key, id) == index[i := (key, index[i].1 + [id])]
  {
    if i > 0 {
      FiledAgain(index[1..], key, id, i - 1);
    }
  }

  lemma FiledIndexed<K>(index: seq<(K, seq<int>)>, entries: seq<(K, int)>, key: K, id: int)
    requires Indexed(index, entries)
    ensures Indexed(Filed(index, key, id), entries + [(key, id)])
  {
    var entries', index' := entries + [(key, id)], Filed(index, key, id);
    assert entries'[..|entries|] == entries;
    var place := |index|;
    if HasKey(index, key) {
      var i :| 0 <= i < |index| && index[i].0 == key;
      place := i;
      FiledAgain(index, key, id, i);
    } else {
      FiledNew(index, key, id);
      NothingFiled(index, entries, key);
    }
    forall p | 0 <= p < |entries'|
      ensures HasKey(index', entries'[p].0)
    {
      if p < |entries| {
        assert entries'[p] == entries[p];
        var j :| 0 <= j < |index| && index[j].0 == entries[p].0;
        assert index'[j].0 == index[j].0;
      } else {
        assert index'[place].0 == key;
      }
    }
  }

  lemma {:induction false} NothingFiled<K>(index: seq<(K, seq<int>)>, entries: seq<(K, int)>, key: K)
    requires forall p :: 0 <= p < |entries| ==> HasKey(index, entries[p].0)
    requires !HasKey(index, key)
    ensures Select(entries, key) == []
  {
    if entries != [] {
      NothingFiled(index, entries[..|entries| - 1], key);
      assert HasKey(index, entries[|entries| - 1].0);
    }
  }

  // ---------------------------------------------------------------- unions within a group

  /** The unions of one group: its first member with each of the others. */
  ghost function Star(group: seq<int>): set<(int, int)> {
    if |group| <= 1 then {} else Star(group[..|group| - 1]) + {(group[0], group[|group| - 1])}
  }

  ghost function Stars<K>(index: seq<(K, seq<int>)>): set<(int, int)> {
    if index == [] then {} else Stars(index[..|index| - 1]) + Star(index[|index| - 1].1)
  }

  lemma {:induction false} StarInside(group: seq<int>, a: int, b: int)
    requires (a, b) in Star(group)
    ensures a in group && b in group
  {
    if (a, b) in Star(group[..|group| - 1]) {
      StarInside(group[..|group| - 1], a, b);
    }
  }

  lemma {:induction false} StarReaches(group: seq<int>, links: set<(int, int)>, x: int)
    requires x in group && Star(group) <= links
    ensures Connected(links, group[0], x)
  {
    var n := |group| - 1;
    if x == group[0] {
      ConnectedReflexive(links, x);
    } else if x == group[n] {
      ConnectedLink(links, group[0], x);
    } else {
      assert x in group[..n];
      StarReaches(group[..n], links, x);
    }
  }

  /** Any two members of a group are connected by its unions. */
  lemma StarConnects(group: seq<int>, links: set<(int, int)>, x: int, y: int)
    requires x in group && y in group && Star(group) <= links
    ensures Connected(links, x, y)
  {
    StarReaches(group, links, x);
    StarReaches(group, links, y);
    ConnectedSymmetric(links, group[0], x);
    ConnectedTransitive(links, x, group[0], y);
  }

  lemma {:induction false} StarsInside<K>(index: seq<(K, seq<int>)>, a: int, b: int)
    requires (a, b) in Stars(index)
    ensures exists i :: 0 <= i < |index| && a in index[i].1 && b in index[i].1
  {
    var n := |index| - 1;
    if (a, b) in Star(index[n].1) {
      StarInside(index[n].1, a, b);
    } else {
      StarsInside(index[..n], a, b);
      var i :| 0 <= i < n && a in index[..n][i].1 && b in index[..n][i].1;
      assert a in index[i].1 && b in index[i].1;
    }
  }

  lemma {:induction false} StarsInclude<K>(index: seq<(K, seq<int>)>, i: nat)
    requires i < |index|
    ensures Star(index[i].1) <= Stars(index)
  {
    if i < |index| - 1 {
      StarsInclude(index[..|index| - 1], i);
    }
  }

  /** Replacing links by links that connect what they connect does not shrink the closure. */
  lemma {:induction false} ChainLifts(links: set<(int, int)>, links': set<(int, int)>, s: seq<int>)
    requires Chain(links, s)
    requires forall a, b :: (a, b) in links ==> Connected(links', a, b)
    ensures Connected(links', s[0], s[|s| - 1])
  {
    var n := |s| - 1;
    if n == 0 {
      ConnectedReflexive(links', s[0]);
    } else {
      ChainLifts(links, links', s[..n]);
      assert Adjacent(links, s[n - 1], s[n]);
      if (s[n], s[n - 1]) in links {
        ConnectedSymmetric(links', s[n], s[n - 1]);
      }
      ConnectedTransitive(links', s[0], s[n - 1], s[n]);
    }
  }

  lemma ClosureLifts(links: set<(int, int)>, links': set<(int, int)>, x: int, y: int)
    requires Connected(links, x, y)
    requires forall a, b :: (a, b) in links ==> Connected(links', a, b)
    ensures Connected(links', x, y)
  {
    var s: seq<int> :| Chain(links, s) && s[0] == x && s[|s| - 1] == y;
    ChainLifts(links, links', s);
  }

  // ---------------------------------------------------------------- the unions connect what shares a key

  /** The entries a dictionary receives when each of the first `n` books is filed under its key, if it
      has one, and the dictionary that results. */
  ghost function Entries<K>(keys: seq<Option<K>>, ids: seq<int>, n: nat): seq<(K, int)>
    requires n <= |keys| == |ids|
  {
    if n == 0 then []
    else Entries(keys, ids, n - 1) + match keys[n - 1] case None => [] case Some(k) => [(k, ids[n - 1])]
  }

  ghost function Dictionary<K>(keys: seq<Option<K>>, ids: seq<int>, n: nat): seq<(K, seq<int>)>
    requires n <= |keys| == |ids|
  {
    if n == 0 then [] else FiledUnder(Dictionary(keys, ids, n - 1), keys[n - 1], ids[n - 1])
  }

  function FiledUnder<K(==)>(index: seq<(K, seq<int>)>, key: Option<K>, id: int): seq<(K, seq<int>)> {
    match key
    case None => index
    case Some(k) => Filed(index, k, id)
  }

  lemma {:induction false} EntryIff<K>(keys: seq<Option<K>>, ids: seq<int>, n: nat, k: K, x: int)
    requires n <= |keys| == |ids|
    ensures (k, x) in Entries(keys, ids, n) <==> exists p :: 0 <= p < n && keys[p] == Some(k) && ids[p] == x
  {
    if n > 0 {
      EntryIff(keys, ids, n - 1, k, x);
    }
  }

  lemma {:induction false} DictionaryIndexed<K>(keys: seq<Option<K>>, ids: seq<int>, n: nat)
    requires n <= |keys| == |ids|
    ensures Indexed(Dictionary(keys, ids, n), Entries(keys, ids, n))
  {
    if n > 0 {
      DictionaryIndexed(keys, ids, n - 1);
      match keys[n - 1] {
        case None =>
          assert Entries(keys, ids, n) == Entries(keys, ids, n - 1);
        case Some(k) =>
          FiledIndexed(Dictionary(keys, ids, n - 1), Entries(keys, ids, n - 1), k, ids[n - 1]);
      }
    }
  }

  ghost function IdsOf(books: seq<BookNode>): seq<int> {
    seq(|books|, p requires 0 <= p < |books| => books[p].id)
  }

  ghost function IsbnKeys(canon: string -> Option<string>, books: seq<BookNode>): seq<Option<string>> {
    seq(|books|, p requires 0 <= p < |books| => canon(books[p].isbn))
  }

  ghost function TitleKeys(books: seq<BookNode>): seq<Option<(string, string)>> {
    seq(|books|, p requires 0 <= p < |books| => books[p].titleKey)
  }

  /** The two dictionaries after the first `n` books have been filed. */
  ghost predicate BothIndexed(canon: string -> Option<string>, books: seq<BookNode>, n: nat,
                              byIsbn: seq<(string, seq<int>)>, byTitle: seq<((string, string), seq<int>)>)
    requires n <= |books|
  {
    && byIsbn == Dictionary(IsbnKeys(canon, books), IdsOf(books), n)
    && byTitle == Dictionary(TitleKeys(books), IdsOf(books), n)
  }

  /** Two ids filed under one key stand together in its group, and conversely. */
  lemma FiledTogether<K>(index: seq<(K, seq<int>)>, entries: seq<(K, int)>, k: K, x: int, y: int)
    requires Indexed(index, entries) && (k, x) in entries && (k, y) in entries
    ensures Connected(Stars(index), x, y)
  {
    var p :| 0 <= p < |entries| && entries[p] == (k, x);
    assert HasKey(index, entries[p].0);
    var i :| 0 <= i < |index| && index[i].0 == k;
    SelectMember(entries, k, x);
    SelectMember(entries, k, y);
    StarsInclude(index, i);
    StarConnects(index[i].1, Stars(index), x, y);
  }

  /** A link of a group joins two books with the same key. */
  lemma StarSharesKey<K>(index: seq<(K, seq<int>)>, keys: seq<Option<K>>, ids: seq<int>, a: int, b: int)
    returns (p: nat, q: nat)
    requires |keys| == |ids| && Indexed(index, Entries(keys, ids, |keys|)) && (a, b) in Stars(index)
    ensures p < |keys| && q < |keys| && keys[p].Some? && keys[p] == keys[q] && ids[p] == a && ids[q] == b
  {
    StarsInside(index, a, b);
    var i :| 0 <= i < |index| && a in index[i].1 && b in index[i].1;
    p := KeyHolder(index, keys, ids, i, a);
    q := KeyHolder(index, keys, ids, i, b);
  }

  lemma KeyHolder<K>(index: seq<(K, seq<int>)>, keys: seq<Option<K>>, ids: seq<int>, i: nat, x: int) returns (p: nat)
    requires |keys| == |ids| && Indexed(index, Entries(keys, ids, |keys|)) && i < |index| && x in index[i].1
    ensures p < |keys| && keys[p] == Some(index[i].0) && ids[p] == x
  {
    SelectMember(Entries(keys, ids, |keys|), index[i].0, x);
    EntryIff(keys, ids, |keys|, index[i].0, x);
    p :| 0 <= p < |keys| && keys[p] == Some(index[i].0) && ids[p] == x;
  }

  lemma SharedKeyStars<K>(index: seq<(K, seq<int>)>, keys: seq<Option<K>>, ids: seq<int>, p: nat, q: nat)
    requires |keys| == |ids| && index == Dictionary(keys, ids, |keys|)
    requires p < |keys| && q < |keys| && keys[p].Some? && keys[p] == keys[q]
    ensures Connected(Stars(index), ids[p], ids[q])
  {
    DictionaryIndexed(keys, ids, |keys|);
    EntryIff(keys, ids, |keys|, keys[p].value, ids[p]);
    EntryIff(keys, ids, |keys|, keys[p].value, ids[q]);
    FiledTogether(index, Entries(keys, ids, |keys|), keys[p].value, ids[p], ids[q]);
  }

  lemma StarsShare(canon: string -> Option<string>, books: seq<BookNode>, byIsbn: seq<(string, seq<int>)>,
                   byTitle: seq<((string, string), seq<int>)>,
                   a: int, b: int)
    requires BothIndexed(canon, books, |books|, byIsbn, byTitle) && (a, b) in Stars(byIsbn) + Stars(byTitle)
    ensures (a, b) in SharedLinks(canon, books)
  {
    var ids := IdsOf(books);
    if (a, b) in Stars(byIsbn) {
      var keys := IsbnKeys(canon, books);
      DictionaryIndexed(keys, ids, |keys|);
      var p, q := StarSharesKey(byIsbn, keys, ids, a, b);
      assert Shares(canon, books[p], books[q]);
    } else {
      var keys := TitleKeys(books);
      DictionaryIndexed(keys, ids, |keys|);
      var p, q := StarSharesKey(byTitle, keys, ids, a, b);
      assert Shares(canon, books[p], books[q]);
    }
  }

  lemma SharedAreStarred(canon: string -> Option<string>, books: seq<BookNode>, byIsbn: seq<(string, seq<int>)>,
                         byTitle: seq<((string, string), seq<int>)>,
                         p: nat, q: nat)
    requires BothIndexed(canon, books, |books|, byIsbn, byTitle)
    requires p < |books| && q < |books| && Shares(canon, books[p], books[q])
    ensures Connected(Stars(byIsbn) + Stars(byTitle), books[p].id, books[q].id)
  {
    var ids, links := IdsOf(books), Stars(byIsbn) + Stars(byTitle);
    if IsbnKeys(canon, books)[p].Some? && IsbnKeys(canon, books)[p] == IsbnKeys(canon, books)[q] {
      SharedKeyStars(byIsbn, IsbnKeys(canon, books), ids, p, q);
      ConnectedMonotone(Stars(byIsbn), links, ids[p], ids[q]);
    } else {
      SharedKeyStars(byTitle, TitleKeys(books), ids, p, q);
      ConnectedMonotone(Stars(byTitle), links, ids[p], ids[q]);
    }
  }

  /** The unions performed have the same closure as "same canonical ISBN or same author and title". */
  lemma UnionsMeanSharing(canon: string -> Option<string>, books: seq<BookNode>, byIsbn: seq<(string, seq<int>)>,
                          byTitle: seq<((string, string), seq<int>)>, x: int, y: int)
    requires BothIndexed(canon, books, |books|, byIsbn, byTitle)
    ensures Connected(Stars(byIsbn) + Stars(byTitle), x, y) <==> Connected(SharedLinks(canon, books), x, y)
  {
    var unions, shared := Stars(byIsbn) + Stars(byTitle), SharedLinks(canon, books);
    forall a, b | (a, b) in unions
      ensures Connected(shared, a, b)
    {
      StarsShare(canon, books, byIsbn, byTitle, a, b);
      ConnectedLink(shared, a, b);
    }
    forall a, b | (a, b) in shared
      ensures Connected(unions, a, b)
    {
      var p, q :| 0 <= p < |books| && 0 <= q < |books| && Shares(canon, books[p], books[q])
                  && (a, b) == (books[p].id, books[q].id);
      SharedAreStarred(canon, books, byIsbn, byTitle, p, q);
    }
    if Connected(unions, x, y) {
      ClosureLifts(unions, shared, x, y);
    }
    if Connected(shared, x, y) {
      ClosureLifts(shared, unions, x, y);
    }
  }
}
