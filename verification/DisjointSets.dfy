/** Union-find with path compression and union by rank, refining the equivalence closure of the
    unions performed. */
module DisjointSets {

  // ---------------------------------------------------------------- the forest

  /** Ranks strictly increase along parents, so every chain of parents ends at a root. */
  ghost predicate Forest(parent: map<int, int>, rank: map<int, nat>) {
    && parent.Keys == rank.Keys
    && forall x {:trigger parent[x]} :: x in parent ==>
         parent[x] in parent && (parent[x] != x ==> rank[x] < rank[parent[x]])
  }

  /** `rep` names the root that every item leads to. */
  ghost predicate Leads(parent: map<int, int>, rep: map<int, int>) {
    rep.Keys == parent.Keys && ParentsLead(parent, rep) && RootsLead(parent, rep)
  }

  /** An item and its parent lead to the same root; an item that is its own parent leads to itself. */
  ghost predicate ParentsLead(parent: map<int, int>, rep: map<int, int>)
    requires rep.Keys == parent.Keys
  {
    forall x {:trigger parent[x]} :: x in parent ==>
      parent[x] in parent && rep[parent[x]] == rep[x] && (parent[x] == x ==> rep[x] == x)
  }

  /** What an item leads to is a root. */
  ghost predicate RootsLead(parent: map<int, int>, rep: map<int, int>)
    requires rep.Keys == parent.Keys
  {
    forall x {:trigger rep[x]} :: x in rep ==> rep[x] in rep && parent[rep[x]] == rep[x] && rep[rep[x]] == rep[x]
  }

  ghost function Above(rank: map<int, nat>, x: int): set<int>
    requires x in rank
  {
    set y | y in rank && rank[x] < rank[y]
  }

  lemma AboveShrinks(parent: map<int, int>, rank: map<int, nat>, x: int)
    requires Forest(parent, rank) && x in parent && parent[x] != x
    ensures Above(rank, parent[x]) < Above(rank, x)
  {
    assert parent[x] in Above(rank, x) && parent[x] !in Above(rank, parent[x]);
  }

  /** The root reached by following parents, and the number of links on the way. */
  ghost function Root(parent: map<int, int>, rank: map<int, nat>, x: int): int
    requires Forest(parent, rank) && x in parent
    decreases Above(rank, x)
  {
    if parent[x] == x then x else AboveShrinks(parent, rank, x); Root(parent, rank, parent[x])
  }

  ghost function Depth(parent: map<int, int>, rank: map<int, nat>, x: int): nat
    requires Forest(parent, rank) && x in parent
    decreases Above(rank, x)
  {
    if parent[x] == x then 0 else AboveShrinks(parent, rank, x); 1 + Depth(parent, rank, parent[x])
  }

  lemma {:induction false} LeadsToRoot(parent: map<int, int>, rank: map<int, nat>, rep: map<int, int>, x: int)
    requires Forest(parent, rank) && Leads(parent, rep) && x in parent
    ensures Root(parent, rank, x) == rep[x]
    ensures rank[x] + Depth(parent, rank, x) <= rank[rep[x]]
    decreases Above(rank, x)
  {
    if parent[x] != x {
      AboveShrinks(parent, rank, x);
      LeadsToRoot(parent, rank, rep, parent[x]);
    }
  }

  // ---------------------------------------------------------------- equivalence closure

  ghost predicate Adjacent(links: set<(int, int)>, x: int, y: int) {
    (x, y) in links || (y, x) in links
  }

  ghost predicate Chain(links: set<(int, int)>, s: seq<int>) {
    s != [] && forall k :: 0 < k < |s| ==> Adjacent(links, s[k - 1], s[k])
  }

  /** The equivalence closure of the links: `x` and `y` are joined by a chain of them. */
  ghost predicate Connected(links: set<(int, int)>, x: int, y: int) {
    exists s: seq<int> :: Chain(links, s) && s[0] == x && s[|s| - 1] == y
  }

  lemma ConnectedReflexive(links: set<(int, int)>, x: int)
    ensures Connected(links, x, x)
  {
    assert Chain(links, [x]) && [x][0] == x;
  }

  lemma ConnectedLink(links: set<(int, int)>, x: int, y: int)
    requires Adjacent(links, x, y)
    ensures Connected(links, x, y)
  {
    var s := [x, y];
    assert Chain(links, s) && s[0] == x && s[|s| - 1] == y;
  }

  lemma ConnectedTransitive(links: set<(int, int)>, x: int, y: int, z: int)
    requires Connected(links, x, y) && Connected(links, y, z)
    ensures Connected(links, x, z)
  {
    var s: seq<int> :| Chain(links, s) && s[0] == x && s[|s| - 1] == y;
    var t: seq<int> :| Chain(links, t) && t[0] == y && t[|t| - 1] == z;
    var st := s + t[1..];
    forall k | 0 < k < |st|
      ensures Adjacent(links, st[k - 1], st[k])
    {
      if k >= |s| {
        assert st[k] == t[k - |s| + 1] && st[k - 1] == t[k - |s|];
      }
    }
    assert Chain(links, st) && st[0] == x && st[|st| - 1] == z;
  }

  lemma {:induction false} ChainReversed(links: set<(int, int)>, s: seq<int>)
    requires Chain(links, s)
    ensures Connected(links, s[|s| - 1], s[0])
  {
    var n := |s| - 1;
    if n == 0 {
      ConnectedReflexive(links, s[0]);
    } else {
      ConnectedLink(links, s[n], s[n - 1]);
      ChainReversed(links, s[..n]);
      ConnectedTransitive(links, s[n], s[n - 1], s[0]);
    }
  }

  lemma ConnectedSymmetric(links: set<(int, int)>, x: int, y: int)
    requires Connected(links, x, y)
    ensures Connected(links, y, x)
  {
    var s: seq<int> :| Chain(links, s) && s[0] == x && s[|s| - 1] == y;
    ChainReversed(links, s);
  }

  lemma ConnectedMonotone(links: set<(int, int)>, links': set<(int, int)>, x: int, y: int)
    requires links <= links' && Connected(links, x, y)
    ensures Connected(links', x, y)
  {
    var s: seq<int> :| Chain(links, s) && s[0] == x && s[|s| - 1] == y;
    assert Chain(links', s);
  }

  /** A relation that holds along every link holds between connected items. */
  lemma {:induction false} ChainKeeps(links: set<(int, int)>, s: seq<int>, mark: map<int, int>)
    requires Chain(links, s)
    requires forall a, b :: (a, b) in links ==> a in mark && b in mark && mark[a] == mark[b]
    requires s[0] in mark
    ensures s[|s| - 1] in mark && mark[s[|s| - 1]] == mark[s[0]]
  {
    var n := |s| - 1;
    if n > 0 {
      ChainKeeps(links, s[..n], mark);
      assert Adjacent(links, s[n - 1], s[n]);
    }
  }

  // ---------------------------------------------------------------- what the forest represents

  ghost predicate Represents(rep: map<int, int>, links: set<(int, int)>) {
    && (forall a, b :: (a, b) in links ==> a in rep && b in rep && rep[a] == rep[b])
    && (forall x {:trigger Connected(links, x, rep[x])} :: x in rep ==> Connected(links, x, rep[x]))
  }

  /** Two items have the same root exactly when the unions connect them. */
  lemma SameRootIffConnected(rep: map<int, int>, links: set<(int, int)>, x: int, y: int)
    requires Represents(rep, links) && x in rep && y in rep
    ensures rep[x] == rep[y] <==> Connected(links, x, y)
  {
    if rep[x] == rep[y] {
      ConnectedSymmetric(links, y, rep[y]);
      ConnectedTransitive(links, x, rep[x], y);
    }
    if Connected(links, x, y) {
      var s: seq<int> :| Chain(links, s) && s[0] == x && s[|s| - 1] == y;
      ChainKeeps(links, s, rep);
    }
  }

  ghost function Class(rep: map<int, int>, r: int): set<int> {
    set x | x in rep && rep[x] == r
  }

  ghost function Pow2(n: nat): nat {
    if n == 0 then 1 else 2 * Pow2(n - 1)
  }

  /** A root of rank r has at least 2^r members. */
  ghost predicate Balanced(rep: map<int, int>, rank: map<int, nat>)
    requires rep.Keys == rank.Keys
  {
    forall r {:trigger Class(rep, r)} :: r in rep && rep[r] == r ==> Pow2(rank[r]) <= |Class(rep, r)|
  }

  /** Hence `find` follows at most log2 of the item count links. */
  lemma DepthIsLogarithmic(parent: map<int, int>, rank: map<int, nat>, rep: map<int, int>, x: int)
    requires Forest(parent, rank) && Leads(parent, rep) && Balanced(rep, rank) && x in parent
    ensures Pow2(Depth(parent, rank, x)) <= |parent|
  {
    var r := rep[x];
    LeadsToRoot(parent, rank, rep, x);
    Pow2Monotone(Depth(parent, rank, x), rank[r]);
    CardinalitySubset(Class(rep, r), parent.Keys);
    assert Pow2(rank[r]) <= |Class(rep, r)|;
  }

  lemma {:induction false} Pow2Monotone(m: nat, n: nat)
    requires m <= n
    ensures Pow2(m) <= Pow2(n)
  {
    if m < n {
      Pow2Monotone(m, n - 1);
    }
  }

  lemma {:induction false} CardinalitySubset(a: set<int>, b: set<int>)
    requires a <= b
    ensures |a| <= |b|
  {
    assert |b| == |a| + |b - a| by {
      assert b == a + (b - a);
    }
  }

  // ---------------------------------------------------------------- what the calls do to the classes

  /** Asking about an unknown item makes it a class of its own. */
  ghost function Known(rep: map<int, int>, x: int): map<int, int> {
    if x in rep then rep else rep[x := x]
  }

  ghost function Merge(rep: map<int, int>, a: int, b: int): map<int, int> {
    map x | x in rep :: if rep[x] == b then a else rep[x]
  }

  /** The classes of `x` and `y` become one class, under one of their two roots. */
  ghost predicate United(rep: map<int, int>, rep': map<int, int>, x: int, y: int) {
    var known := Known(Known(rep, x), y);
    || (known[x] == known[y] && rep' == known)
    || rep' == Merge(known, known[x], known[y])
    || rep' == Merge(known, known[y], known[x])
  }

  lemma UnitedKeys(rep: map<int, int>, rep': map<int, int>, x: int, y: int)
    requires United(rep, rep', x, y)
    ensures rep'.Keys == rep.Keys + {x, y}
  {
  }

  lemma KnownRepresents(rep: map<int, int>, links: set<(int, int)>, x: int)
    requires Represents(rep, links)
    ensures Represents(Known(rep, x), links)
  {
    ConnectedReflexive(links, x);
    forall z | z in rep
      ensures Connected(links, z, Known(rep, x)[z])
    {
      assert Connected(links, z, rep[z]);
    }
  }

  lemma MergeRepresents(rep: map<int, int>, links: set<(int, int)>, x: int, y: int, link: (int, int))
    requires Represents(rep, links) && x in rep && y in rep && (link == (x, y) || link == (y, x))
    ensures Represents(Merge(rep, rep[x], rep[y]), links + {link})
  {
    var a, b := rep[x], rep[y];
    var links' := links + {link};
    ConnectedMonotone(links, links', x, a);
    ConnectedMonotone(links, links', y, b);
    ConnectedSymmetric(links', y, b);
    ConnectedLink(links', y, x);
    ConnectedTransitive(links', b, y, x);
    ConnectedTransitive(links', b, x, a);
    forall z | z in rep
      ensures Connected(links', z, Merge(rep, a, b)[z])
    {
      ConnectedMonotone(links, links', z, rep[z]);
      if rep[z] == b {
        ConnectedTransitive(links', z, b, a);
      }
    }
  }

  lemma RedundantRepresents(rep: map<int, int>, links: set<(int, int)>, x: int, y: int)
    requires Represents(rep, links) && x in rep && y in rep && rep[x] == rep[y]
    ensures Represents(rep, links + {(x, y)})
  {
    forall z | z in rep
      ensures Connected(links + {(x, y)}, z, rep[z])
    {
      ConnectedMonotone(links, links + {(x, y)}, z, rep[z]);
    }
  }

  // ---------------------------------------------------------------- each update is safe

  /** Everything the structure maintains about its two dictionaries. */
  ghost predicate Sound(parent: map<int, int>, rank: map<int, nat>, rep: map<int, int>) {
    Forest(parent, rank) && Leads(parent, rep) && Balanced(rep, rank)
  }

  lemma AddSingleton(parent: map<int, int>, rank: map<int, nat>, rep: map<int, int>, item: int)
    requires Sound(parent, rank, rep) && item !in parent
    ensures Sound(parent[item := item], rank[item := 0], rep[item := item])
  {
    var rep', rank' := rep[item := item], rank[item := 0];
    assert item in Class(rep', item);
    forall r | r in rep && rep[r] == r
      ensures Pow2(rank'[r]) <= |Class(rep', r)|
    {
      assert Class(rep', r) == Class(rep, r);
      assert Pow2(rank[r]) <= |Class(rep, r)|;
    }
  }

  /** Redirecting an item to its root changes nobody's root. */
  lemma Compress(parent: map<int, int>, rank: map<int, nat>, rep: map<int, int>, item: int)
    requires Sound(parent, rank, rep) && item in parent && parent[item] != item
    ensures Sound(parent[item := rep[item]], rank, rep)
  {
    LeadsToRoot(parent, rank, rep, item);
    AboveShrinks(parent, rank, item);
    assert Depth(parent, rank, item) > 0;
  }

  ghost function RankAfter(rank: map<int, nat>, a: int, b: int): map<int, nat>
    requires a in rank && b in rank
  {
    if rank[a] == rank[b] then rank[a := rank[a] + 1] else rank
  }

  /** Hanging root `b` below root `a`, by rank, merges the two classes and keeps them balanced. */
  lemma Link(parent: map<int, int>, rank: map<int, nat>, rank': map<int, nat>, rep: map<int, int>, a: int, b: int)
    requires Sound(parent, rank, rep) && a in rep && b in rep && rep[a] == a && rep[b] == b && a != b
    requires rank[b] <= rank[a] && rank' == RankAfter(rank, a, b)
    ensures Sound(parent[b := a], rank', Merge(rep, a, b))
  {
    LinkedForest(parent, rank, rep, a, b);
    LinkedParents(parent, rep, a, b);
    LinkedRoots(parent, rep, a, b);
    MergeBalanced(rep, rank, a, b);
  }

  /** Two different roots, the second of no higher rank. */
  ghost predicate Linkable(parent: map<int, int>, rank: map<int, nat>, rep: map<int, int>, a: int, b: int) {
    && Forest(parent, rank) && Leads(parent, rep) && a in rep && b in rep && rep[a] == a && rep[b] == b && a != b
    && rank[b] <= rank[a]
  }

  lemma LinkedRank(parent: map<int, int>, rank: map<int, nat>, rep: map<int, int>, a: int, b: int, x: int)
    requires Linkable(parent, rank, rep, a, b) && x in parent
    ensures var p, r := parent[b := a], RankAfter(rank, a, b);
            p[x] in p && (p[x] != x ==> r[x] < r[p[x]])
  {
    assert parent[x] in parent && (parent[x] != x ==> rank[x] < rank[parent[x]]);
    assert parent[a] == a;
  }

  lemma LinkedForest(parent: map<int, int>, rank: map<int, nat>, rep: map<int, int>, a: int, b: int)
    requires Linkable(parent, rank, rep, a, b)
    ensures Forest(parent[b := a], RankAfter(rank, a, b))
  {
    var p, r := parent[b := a], RankAfter(rank, a, b);
    assert p.Keys == r.Keys;
    forall x | x in p
      ensures p[x] in p && (p[x] != x ==> r[x] < r[p[x]])
    {
      LinkedRank(parent, rank, rep, a, b, x);
    }
  }

  lemma LinkedParent(parent: map<int, int>, rep: map<int, int>, a: int, b: int, x: int)
    requires Leads(parent, rep) && a in rep && b in rep && rep[a] == a && rep[b] == b && x in parent
    ensures var p, r := parent[b := a], Merge(rep, a, b);
            p[x] in p && r[p[x]] == r[x] && (p[x] == x ==> r[x] == x)
  {
    assert parent[x] in parent && rep[parent[x]] == rep[x];
  }

  lemma LinkedRoot(parent: map<int, int>, rep: map<int, int>, a: int, b: int, x: int)
    requires Leads(parent, rep) && a in rep && b in rep && rep[a] == a && rep[b] == b && a != b && x in rep
    ensures var p, r := parent[b := a], Merge(rep, a, b);
            r[x] in r && p[r[x]] == r[x] && r[r[x]] == r[x]
  {
    var root := rep[x];
    assert root in rep && parent[root] == root && rep[root] == root;
    assert parent[rep[a]] == a;
  }

  lemma LinkedParents(parent: map<int, int>, rep: map<int, int>, a: int, b: int)
    requires Leads(parent, rep) && a in rep && b in rep && rep[a] == a && rep[b] == b
    ensures var p, r := parent[b := a], Merge(rep, a, b); r.Keys == p.Keys && ParentsLead(p, r)
  {
    var p, r := parent[b := a], Merge(rep, a, b);
    assert r.Keys == p.Keys;
    forall x | x in p
      ensures p[x] in p && r[p[x]] == r[x] && (p[x] == x ==> r[x] == x)
    {
      LinkedParent(parent, rep, a, b, x);
    }
  }

  lemma LinkedRoots(parent: map<int, int>, rep: map<int, int>, a: int, b: int)
    requires Leads(parent, rep) && a in rep && b in rep && rep[a] == a && rep[b] == b && a != b
    ensures var p, r := parent[b := a], Merge(rep, a, b); r.Keys == p.Keys && RootsLead(p, r)
  {
    var p, r := parent[b := a], Merge(rep, a, b);
    assert r.Keys == p.Keys;
    forall x | x in r
      ensures r[x] in r && p[r[x]] == r[x] && r[r[x]] == r[x]
    {
      LinkedRoot(parent, rep, a, b, x);
    }
  }

  lemma MergeBalanced(rep: map<int, int>, rank: map<int, nat>, a: int, b: int)
    requires rep.Keys == rank.Keys && Balanced(rep, rank)
    requires a in rep && b in rep && rep[a] == a && rep[b] == b && a != b
    requires rank[b] <= rank[a]
    ensures Balanced(Merge(rep, a, b), RankAfter(rank, a, b))
  {
    var rep' := Merge(rep, a, b);
    var rank' := RankAfter(rank, a, b);
    forall r | r in rep' && rep'[r] == r
      ensures Pow2(rank'[r]) <= |Class(rep', r)|
    {
      assert Pow2(rank[r]) <= |Class(rep, r)|;
      if r == a {
        assert Pow2(rank[b]) <= |Class(rep, b)|;
        assert Class(rep', a) == Class(rep, a) + Class(rep, b);
        assert Class(rep, a) !! Class(rep, b);
      } else {
        assert Class(rep', r) == Class(rep, r);
      }
    }
  }

  // ---------------------------------------------------------------- every state that can arise

  datatype State = State(parent: map<int, int>, rank: map<int, nat>, rep: map<int, int>, links: set<(int, int)>)

  ghost predicate Added(s: State, t: State, item: int) {
    item !in s.parent && t == State(s.parent[item := item], s.rank[item := 0], s.rep[item := item], s.links)
  }

  ghost predicate Compressed(s: State, t: State, item: int) {
    item in s.parent && item in s.rep && s.parent[item] != item && t == s.(parent := s.parent[item := s.rep[item]])
  }

  /** The roots of `x` and `y` are joined, `b` below `a`. */
  ghost predicate Joined(s: State, t: State, x: int, y: int, a: int, b: int) {
    && x in s.rep && y in s.rep && (a, b) in {(s.rep[x], s.rep[y]), (s.rep[y], s.rep[x])} && a != b
    && a in s.rank && b in s.rank && s.rank[b] <= s.rank[a]
    && t == State(s.parent[b := a], RankAfter(s.rank, a, b), Merge(s.rep, a, b), s.links + {(x, y)})
  }

  ghost predicate Already(s: State, t: State, x: int, y: int) {
    x in s.rep && y in s.rep && s.rep[x] == s.rep[y] && t == s.(links := s.links + {(x, y)})
  }

  ghost predicate Move(s: State, t: State) {
    || (exists item :: Added(s, t, item))
    || (exists item :: Compressed(s, t, item))
    || (exists x, y, a, b :: Joined(s, t, x, y, a, b))
    || (exists x, y :: Already(s, t, x, y))
  }

  /** The states of the structure so far, one for each change to its dictionaries. */
  ghost predicate Grown(states: seq<State>) {
    if |states| <= 1 then states == [State(map[], map[], map[], {})]
    else Grown(states[..|states| - 1]) && Move(states[|states| - 2], states[|states| - 1])
  }

  lemma GrownStep(states: seq<State>, t: State)
    requires Grown(states) && Move(states[|states| - 1], t)
    ensures Grown(states + [t])
  {
    assert (states + [t])[..|states|] == states;
  }

  /** Every state that can arise is a sound, balanced forest that represents exactly the unions performed. */
  lemma {:induction false} GrownSound(states: seq<State>)
    requires Grown(states)
    ensures states != []
    ensures var s := states[|states| - 1]; Sound(s.parent, s.rank, s.rep) && Represents(s.rep, s.links)
  {
    var n := |states| - 1;
    if n > 0 {
      GrownSound(states[..n]);
      MoveSound(states[n - 1], states[n]);
    }
  }

  lemma MoveSound(s: State, t: State)
    requires Sound(s.parent, s.rank, s.rep) && Represents(s.rep, s.links) && Move(s, t)
    ensures Sound(t.parent, t.rank, t.rep) && Represents(t.rep, t.links)
  {
    if item :| Added(s, t, item) {
      AddSingleton(s.parent, s.rank, s.rep, item);
      KnownRepresents(s.rep, s.links, item);
    } else if item :| Compressed(s, t, item) {
      Compress(s.parent, s.rank, s.rep, item);
    } else if x, y, a, b :| Joined(s, t, x, y, a, b) {
      Link(s.parent, s.rank, t.rank, s.rep, a, b);
      if (a, b) == (s.rep[x], s.rep[y]) {
        MergeRepresents(s.rep, s.links, x, y, (x, y));
      } else {
        MergeRepresents(s.rep, s.links, y, x, (x, y));
      }
    } else {
      var x, y :| Already(s, t, x, y);
      RedundantRepresents(s.rep, s.links, x, y);
    }
  }

  /** What the state says about one known item. */
  lemma ItemFacts(states: seq<State>, item: int)
    requires Grown(states)
    ensures states != []
    ensures var s := states[|states| - 1];
            && (item in s.parent <==> item in s.rank) && (item in s.parent <==> item in s.rep)
            && (item in s.parent ==>
                 var p := s.parent[item];
                 && p in s.parent && p in s.rank && p in s.rep && s.rep[p] == s.rep[item] && s.rep[item] in s.rank
                 && (p == item ==> s.rep[item] == item)
                 && (p != item ==> Above(s.rank, p) + {p} < Above(s.rank, item) + {item}))
  {
    GrownSound(states);
    var s := states[|states| - 1];
    if item in s.parent && s.parent[item] != item {
      AboveShrinks(s.parent, s.rank, item);
      assert item !in Above(s.rank, s.parent[item]) + {s.parent[item]};
    }
  }

  // ---------------------------------------------------------------- the data structure

  class DisjointSetUnion {
    var parent: map<int, int>
    var rank: map<int, nat>
    ghost var rep: map<int, int>
    ghost var links: set<(int, int)>
    ghost var states: seq<State>

    ghost function Now(): State
      reads this
    {
      State(parent, rank, rep, links)
    }

    ghost predicate Valid()
      reads this
    {
      Grown(states) && states != [] && states[|states| - 1] == Now()
    }

    constructor ()
      ensures Valid() && rep == map[] && links == {}
    {
      parent, rank, rep, links := map[], map[], map[], {};
      states := [State(map[], map[], map[], {})];
    }

    /** A first sight of an item. */
    method Add(item: int)
      requires Valid() && item !in parent
      modifies this
      ensures Valid() && rep == old(rep)[item := item] && links == old(links)
    {
      ghost var before := Now();
      parent, rank, rep := parent[item := item], rank[item := 0], rep[item := item];
      assert Added(before, Now(), item);
      GrownStep(states, Now());
      states := states + [Now()];
    }

    /** Path compression of one item. */
    method Redirect(item: int, root: int)
      requires Valid() && item in parent && item in rep && root == rep[item] && (parent[item] == item ==> root == item)
      modifies this
      ensures Valid() && parent == old(parent)[item := root]
      ensures rep == old(rep) && rank == old(rank) && links == old(links)
    {
      ghost var before := Now();
      parent := parent[item := root];
      if before.parent[item] == item {
        assert parent == before.parent;
      } else {
        assert Compressed(before, Now(), item);
        GrownStep(states, Now());
        states := states + [Now()];
      }
    }

    /** Hang root `b` below root `a`. */
    method Hang(ghost x: int, ghost y: int, a: int, b: int)
      requires Valid() && x in rep && y in rep && a != b && a in rank && b in rank && rank[b] <= rank[a]
      requires (a == rep[x] && b == rep[y]) || (a == rep[y] && b == rep[x])
      modifies this
      ensures Valid() && links == old(links) + {(x, y)} && rep == Merge(old(rep), a, b)
    {
      ghost var before := Now();
      parent := parent[b := a];
      if rank[a] == rank[b] {
        rank := rank[a := rank[a] + 1];
      }
      rep, links := Merge(rep, a, b), links + {(x, y)};
      assert Joined(before, Now(), x, y, a, b);
      GrownStep(states, Now());
      states := states + [Now()];
    }

    /** `find`: the representative. Path compression rewrites parents and changes no representative. */
    method Find(item: int) returns (root: int)
      requires Valid()
      modifies this
      ensures Valid() && rep == Known(old(rep), item) && links == old(links) && item in rep && root == rep[item]
      decreases if item in rank then Above(rank, item) + {item} else {}
    {
      ItemFacts(states, item);
      if item !in parent {
        Add(item);
        return item;
      }
      if parent[item] != item {
        root := Find(parent[item]);
        ItemFacts(states, item);
        Redirect(item, root);
      }
      root := parent[item];
    }

    /** A union of two items that are already together. */
    ghost method Note(x: int, y: int)
      requires Valid() && x in rep && y in rep && rep[x] == rep[y]
      modifies this`links, this`states
      ensures Valid() && links == old(links) + {(x, y)}
    {
      ghost var before := Now();
      links := links + {(x, y)};
      assert Already(before, Now(), x, y);
      GrownStep(states, Now());
      states := states + [Now()];
    }

    /** The root of lower rank goes below the other; on a tie the first root stays on top and grows. */
    method Attach(ghost x: int, ghost y: int, rx: int, ry: int)
      requires Valid() && x in rep && y in rep && rx == rep[x] && ry == rep[y] && rx != ry
      modifies this
      ensures Valid() && links == old(links) + {(x, y)}
      ensures rep == Merge(old(rep), rx, ry) || rep == Merge(old(rep), ry, rx)
    {
      ItemFacts(states, x);
      ItemFacts(states, y);
      if rank[rx] < rank[ry] {
        Hang(x, y, ry, rx);
      } else {
        Hang(x, y, rx, ry);
      }
    }

    /** `union`: the two classes become one, and no other class changes. */
    method Union(x: int, y: int)
      requires Valid()
      modifies this
      ensures Valid() && links == old(links) + {(x, y)} && United(old(rep), rep, x, y)
    {
      var rx := Find(x);
      var ry := Find(y);
      if rx == ry {
        Note(x, y);
      } else {
        Attach(x, y, rx, ry);
      }
    }

    /** After any calls, two known items have the same representative exactly when the unions performed
        connect them, parents lead from each item to its representative, and the way there has at most
        log2 of the item count links. */
    lemma ClassesAreClosure(x: int, y: int)
      requires Valid() && x in rep && y in rep
      ensures rep[x] == rep[y] <==> Connected(links, x, y)
      ensures Forest(parent, rank) && x in parent && Root(parent, rank, x) == rep[x]
      ensures Pow2(Depth(parent, rank, x)) <= |parent|
    {
      GrownSound(states);
      SameRootIffConnected(rep, links, x, y);
      LeadsToRoot(parent, rank, rep, x);
      DepthIsLogarithmic(parent, rank, rep, x);
    }
  }
}
