/** The fuzzy matcher's similarity ratio: a rolling-row Levenshtein loop refining the least number of
    single-character edits. */
module EditDistance {

  // ---------------------------------------------------------------- edits, one character at a time

  function Insert(s: string, k: nat, c: char): string
    requires k <= |s|
  {
    s[..k] + [c] + s[k..]
  }

  ghost predicate Inserted(s: string, t: string) {
    exists k, c :: 0 <= k <= |s| && t == Insert(s, k, c)
  }

  function Replace(s: string, k: nat, c: char): string
    requires k < |s|
  {
    s[k := c]
  }

  ghost predicate Replaced(s: string, t: string) {
    exists k, c :: 0 <= k < |s| && t == Replace(s, k, c)
  }

  /** `t` is `s` with one character inserted, deleted or replaced. */
  ghost predicate Edited(s: string, t: string) {
    Inserted(s, t) || Inserted(t, s) || Replaced(s, t)
  }

  /** A sequence of strings in which each is one edit away from the one before. */
  ghost predicate Script(steps: seq<string>) {
    steps != [] && forall k :: 0 < k < |steps| ==> Edited(steps[k - 1], steps[k])
  }

  /** Some script of exactly `n` edits turns `s` into `t`. */
  ghost predicate Within(s: string, t: string, n: nat) {
    exists steps :: Script(steps) && |steps| == n + 1 && steps[0] == s && steps[n] == t
  }

  // ---------------------------------------------------------------- the recurrence

  function Min(a: nat, b: nat): nat {
    if a <= b then a else b
  }

  function Lev(s: string, t: string): nat
    decreases |s| + |t|
  {
    if s == [] then |t|
    else if t == [] then |s|
    else
      var s', t' := s[..|s| - 1], t[..|t| - 1];
      Min(Min(Lev(s', t) + 1, Lev(s, t') + 1), Lev(s', t') + if s[|s| - 1] == t[|t| - 1] then 0 else 1)
  }

  lemma {:induction false} LevSymmetric(s: string, t: string)
    ensures Lev(s, t) == Lev(t, s)
    decreases |s| + |t|
  {
    if s != [] && t != [] {
      var s', t' := s[..|s| - 1], t[..|t| - 1];
      LevSymmetric(s', t);
      LevSymmetric(s, t');
      LevSymmetric(s', t');
    }
  }

  lemma {:induction false} LevZero(s: string, t: string)
    ensures Lev(s, t) == 0 <==> s == t
    decreases |s| + |t|
  {
    if s != [] && t != [] {
      var s', t' := s[..|s| - 1], t[..|t| - 1];
      LevZero(s', t');
      assert s == s' + [s[|s| - 1]] && t == t' + [t[|t| - 1]];
    }
  }

  /** The distance never exceeds the longer length and never undercuts the difference of the lengths. */
  lemma {:induction false} LevBounds(s: string, t: string)
    ensures Lev(s, t) <= |s| || Lev(s, t) <= |t|
    ensures |s| - |t| <= Lev(s, t) && |t| - |s| <= Lev(s, t)
    decreases |s| + |t|
  {
    if s != [] && t != [] {
      var s', t' := s[..|s| - 1], t[..|t| - 1];
      LevBounds(s', t);
      LevBounds(s, t');
      LevBounds(s', t');
    }
  }

  // ---------------------------------------------------------------- the distance is achieved

  lemma EditFirst(s: string, u: string, t: string, n: nat)
    requires Edited(s, u) && Within(u, t, n)
    ensures Within(s, t, n + 1)
  {
    var steps :| Script(steps) && |steps| == n + 1 && steps[0] == u && steps[n] == t;
    var longer := [s] + steps;
    forall k | 0 < k < |longer|
      ensures Edited(longer[k - 1], longer[k])
    {
      assert longer[k] == steps[k - 1];
      assert k > 1 ==> longer[k - 1] == steps[k - 2];
    }
    assert Script(longer) && longer[n + 1] == t;
  }

  lemma EditLast(s: string, u: string, t: string, n: nat)
    requires Within(s, u, n) && Edited(u, t)
    ensures Within(s, t, n + 1)
  {
    var steps :| Script(steps) && |steps| == n + 1 && steps[0] == s && steps[n] == u;
    var longer := steps + [t];
    assert Script(longer) && longer[0] == s && longer[n + 1] == t;
  }

  lemma EditedBefore(s: string, t: string, c: char)
    requires Edited(s, t)
    ensures Edited(s + [c], t + [c])
  {
    if Inserted(s, t) {
      InsertedBefore(s, t, c);
    } else if Inserted(t, s) {
      InsertedBefore(t, s, c);
    } else {
      var k, d :| 0 <= k < |s| && t == Replace(s, k, d);
      assert t + [c] == Replace(s + [c], k, d);
    }
  }

  lemma InsertedBefore(s: string, t: string, c: char)
    requires Inserted(s, t)
    ensures Inserted(s + [c], t + [c])
  {
    var k, d :| 0 <= k <= |s| && t == Insert(s, k, d);
    assert t + [c] == Insert(s + [c], k, d);
  }

  /** A script works as well in front of a further character. */
  lemma WithinBefore(s: string, t: string, n: nat, c: char)
    requires Within(s, t, n)
    ensures Within(s + [c], t + [c], n)
  {
    var steps :| Script(steps) && |steps| == n + 1 && steps[0] == s && steps[n] == t;
    var longer := seq(n + 1, k requires 0 <= k < |steps| => steps[k] + [c]);
    forall k | 0 < k < |longer|
      ensures Edited(longer[k - 1], longer[k])
    {
      EditedBefore(steps[k - 1], steps[k], c);
    }
    assert Script(longer) && longer[0] == s + [c] && longer[n] == t + [c];
  }

  lemma LastInserted(s: string)
    requires s != []
    ensures Inserted(s[..|s| - 1], s)
  {
    assert s == Insert(s[..|s| - 1], |s| - 1, s[|s| - 1]);
  }

  /** Some script has exactly as many edits as the recurrence says. */
  lemma {:induction false} DistanceAchieved(s: string, t: string)
    ensures Within(s, t, Lev(s, t))
    decreases |s| + |t|
  {
    if s == [] && t == [] {
      assert Script([s]) && [s][0] == t;
    } else if s == [] || (t != [] && Lev(s, t) == Lev(s, t[..|t| - 1]) + 1) {
      DistanceAchieved(s, t[..|t| - 1]);
      LastInserted(t);
      EditLast(s, t[..|t| - 1], t, Lev(s, t[..|t| - 1]));
    } else if t == [] || Lev(s, t) == Lev(s[..|s| - 1], t) + 1 {
      DistanceAchieved(s[..|s| - 1], t);
      LastInserted(s);
      EditFirst(s, s[..|s| - 1], t, Lev(s[..|s| - 1], t));
    } else {
      DistanceAchievedByPrefixes(s, t);
    }
  }

  lemma {:induction false} DistanceAchievedByPrefixes(s: string, t: string)
    requires s != [] && t != []
    requires Lev(s, t) == Lev(s[..|s| - 1], t[..|t| - 1]) + if s[|s| - 1] == t[|t| - 1] then 0 else 1
    ensures Within(s, t, Lev(s, t))
    decreases |s| + |t|, 0
  {
    var s', t', c, d := s[..|s| - 1], t[..|t| - 1], s[|s| - 1], t[|t| - 1];
    DistanceAchieved(s', t');
    WithinBefore(s', t', Lev(s', t'), c);
    assert s == s' + [c] && t == t' + [d];
    if c != d {
      assert t == Replace(t' + [c], |t'|, d);
      EditLast(s, t' + [c], t, Lev(s', t'));
    }
  }

  // ---------------------------------------------------------------- no shorter script exists

  predicate Near(a: int, b: int) {
    -1 <= a - b <= 1
  }

  /** One more character at the end moves the distance by at most one. */
  lemma {:induction false} AppendNear(s: string, c: char, t: string)
    ensures Near(Lev(s, t), Lev(s + [c], t))
    decreases |t|
  {
    assert (s + [c])[..|s|] == s;
    if t != [] {
      var t' := t[..|t| - 1];
      AppendNear(s, c, t');
      GrowByOne(s, t);
    }
  }

  lemma GrowByOne(s: string, t: string)
    requires t != []
    ensures Lev(s, t) <= Lev(s, t[..|t| - 1]) + 1
  {
  }

  /** Strings with the same last character are as near as their fronts are, to every target. */
  lemma StepNear(a: string, b: string, t: string)
    requires a != [] && b != [] && a[|a| - 1] == b[|b| - 1] && Near(|a|, |b|)
    requires t != [] ==> Near(Lev(a[..|a| - 1], t), Lev(b[..|b| - 1], t))
    requires t != [] ==> Near(Lev(a[..|a| - 1], t[..|t| - 1]), Lev(b[..|b| - 1], t[..|t| - 1]))
    requires t != [] ==> Near(Lev(a, t[..|t| - 1]), Lev(b, t[..|t| - 1]))
    ensures Near(Lev(a, t), Lev(b, t))
  {
  }

  lemma {:induction false} InsertNear(s: string, k: nat, c: char, t: string)
    requires k <= |s|
    ensures Near(Lev(s, t), Lev(Insert(s, k, c), t))
    decreases |s| + |t|
  {
    var u := Insert(s, k, c);
    if k == |s| {
      assert u == s + [c];
      AppendNear(s, c, t);
    } else {
      var s' := s[..|s| - 1];
      assert u[..|u| - 1] == Insert(s', k, c);
      if t != [] {
        InsertNear(s', k, c, t);
        InsertNear(s', k, c, t[..|t| - 1]);
        InsertNear(s, k, c, t[..|t| - 1]);
      }
      StepNear(s, u, t);
    }
  }

  lemma LastReplacedNear(s: string, c: char, t: string)
    requires s != [] && (t != [] ==> Near(Lev(s, t[..|t| - 1]), Lev(Replace(s, |s| - 1, c), t[..|t| - 1])))
    ensures Near(Lev(s, t), Lev(Replace(s, |s| - 1, c), t))
  {
    var n := |s| - 1;
    assert Replace(s, n, c)[..n] == s[..n];
  }

  lemma {:induction false} ReplaceNear(s: string, k: nat, c: char, t: string)
    requires k < |s|
    ensures Near(Lev(s, t), Lev(Replace(s, k, c), t))
    decreases |s| + |t|
  {
    var n := |s| - 1;
    var u := Replace(s, k, c);
    if t != [] {
      ReplaceNear(s, k, c, t[..|t| - 1]);
    }
    if k == n {
      LastReplacedNear(s, c, t);
    } else {
      assert u[..n] == Replace(s[..n], k, c);
      if t != [] {
        ReplaceNear(s[..n], k, c, t);
        ReplaceNear(s[..n], k, c, t[..|t| - 1]);
      }
      StepNear(s, u, t);
    }
  }

  /** One edit moves the distance to any target by at most one. */
  lemma EditNear(s: string, u: string, t: string)
    requires Edited(s, u)
    ensures Near(Lev(s, t), Lev(u, t))
  {
    if Inserted(s, u) {
      var k, c :| 0 <= k <= |s| && u == Insert(s, k, c);
      InsertNear(s, k, c, t);
    } else if Inserted(u, s) {
      var k, c :| 0 <= k <= |u| && s == Insert(u, k, c);
      InsertNear(u, k, c, t);
    } else {
      var k, c :| 0 <= k < |s| && u == Replace(s, k, c);
      ReplaceNear(s, k, c, t);
    }
  }

  lemma {:induction false} ScriptCost(steps: seq<string>)
    requires Script(steps)
    ensures Lev(steps[0], steps[|steps| - 1]) <= |steps| - 1
  {
    var t := steps[|steps| - 1];
    if |steps| == 1 {
      LevZero(t, t);
    } else {
      assert steps[1..][|steps| - 2] == t;
      assert Edited(steps[0], steps[1]);
      ScriptCost(steps[1..]);
      EditNear(steps[0], steps[1], t);
    }
  }

  /** The recurrence is the minimum edit distance: some script of that many edits exists, and none shorter. */
  lemma DistanceIsMinimal(s: string, t: string)
    ensures Within(s, t, Lev(s, t))
    ensures forall n: nat :: Within(s, t, n) ==> Lev(s, t) <= n
  {
    DistanceAchieved(s, t);
    forall n: nat | Within(s, t, n)
      ensures Lev(s, t) <= n
    {
      var steps :| Script(steps) && |steps| == n + 1 && steps[0] == s && steps[n] == t;
      ScriptCost(steps);
    }
  }

  // ---------------------------------------------------------------- the rolling row

  /** Row `i` of the table: distances from the first `i` characters of `c1` to every prefix of `c2`. */
  ghost predicate IsRow(row: seq<nat>, s: string, c2: string) {
    |row| == |c2| + 1 && IsRowStart(row, s, c2)
  }

  ghost predicate IsRowStart(row: seq<nat>, s: string, c2: string)
    requires |row| <= |c2| + 1
  {
    forall j {:trigger row[j]} :: 0 <= j < |row| ==> row[j] == Lev(s, c2[..j])
  }

  lemma RowGrows(row: seq<nat>, s: string, c2: string, next: nat)
    requires |row| <= |c2| && IsRowStart(row, s, c2) && next == Lev(s, c2[..|row|])
    ensures IsRowStart(row + [next], s, c2)
  {
  }


  method Distance(c1: string, c2: string) returns (d: nat)
    ensures d == Lev(c1, c2)
  {
    var prev: seq<nat> := seq(|c2| + 1, j => j);
    assert IsRow(prev, c1[..0], c2);
    for i := 0 to |c1|
      invariant IsRow(prev, c1[..i], c2)
    {
      prev := NextRow(c1, c2, i, prev);
    }
    assert c1[..|c1|] == c1 && c2[..|c2|] == c2;
    d := prev[|prev| - 1];
  }

  lemma LevStep(c1: string, c2: string, i: nat, j: nat)
    requires i < |c1| && j < |c2|
    ensures Lev(c1[..i + 1], c2[..j + 1]) ==
            Min(Min(Lev(c1[..i], c2[..j + 1]) + 1, Lev(c1[..i + 1], c2[..j]) + 1),
                Lev(c1[..i], c2[..j]) + if c1[i] != c2[j] then 1 else 0)
  {
    assert c1[..i + 1][..i] == c1[..i] && c2[..j + 1][..j] == c2[..j];
  }

  /** One pass of the inner loop, which keeps only the row before. */
  method NextRow(c1: string, c2: string, i: nat, prev: seq<nat>) returns (curr: seq<nat>)
    requires i < |c1| && IsRow(prev, c1[..i], c2)
    ensures IsRow(curr, c1[..i + 1], c2)
  {
    ghost var s := c1[..i + 1];
    curr := [i + 1];
    assert curr[0] == Lev(s, c2[..0]);
    for j := 0 to |c2|
      invariant |curr| == j + 1 && IsRowStart(curr, s, c2)
    {
      var ins := prev[j + 1] + 1;
      var dels := curr[j] + 1;
      var subs := prev[j] + if c1[i] != c2[j] then 1 else 0;
      var next := Min(Min(ins, dels), subs);
      LevStep(c1, c2, i, j);
      RowGrows(curr, s, c2, next);
      curr := curr + [next];
    }
  }

  // ---------------------------------------------------------------- the ratio

  function Longest(s: string, t: string): nat {
    if |s| < |t| then |t| else |s|
  }

  /** What the ratio means: one less the share of the longer string that has to be edited. */
  ghost function Similarity(c1: string, c2: string): real {
    if c1 == [] && c2 == [] then 1.0
    else 1.0 - Lev(c1, c2) as real / Longest(c1, c2) as real
  }

  /** `d` single-character edits turn one string into the other, and fewer do not. */
  ghost predicate LeastEdits(s: string, t: string, d: nat) {
    Within(s, t, d) && forall k: nat :: k < d ==> !Within(s, t, k)
  }

  /** `r` is the share of `n` characters that is left when `d` have to be edited; of nothing, all of it. */
  predicate Share(r: real, n: nat, d: nat) {
    && d <= n && r * n as real == (n - d) as real
    && (n == 0 ==> r == 1.0) && (n > 0 ==> (r == 0.0 <==> d == n))
  }

  lemma Left(q: real, m: real, e: real)
    requires q * m == e
    ensures (1.0 - q) * m == m - e
  {
    assert (1.0 - q) * m == 1.0 * m - q * m;
  }

  lemma Whole(q: real, m: real, e: real)
    requires q * m == e && m != 0.0
    ensures q == 1.0 <==> e == m
  {
    if e == m {
      assert (q - 1.0) * m == 0.0;
    }
  }

  lemma Quotient(e: real, m: real)
    requires m != 0.0
    ensures (e / m) * m == e
  {
  }

  lemma ShareOf(n: nat, d: nat)
    requires d <= n && n > 0
    ensures Share(1.0 - d as real / n as real, n, d)
  {
    var q, m, e := d as real / n as real, n as real, d as real;
    Quotient(e, m);
    Left(q, m, e);
    Whole(q, m, e);
  }

  /** The similarity is the share of the longer string that the least number of edits leaves; so it is zero exactly
      when every character has to be edited. */
  lemma SimilarityIs(s: string, t: string)
    ensures exists d: nat :: LeastEdits(s, t, d)
    ensures forall d: nat :: LeastEdits(s, t, d) ==> Share(Similarity(s, t), if |s| < |t| then |t| else |s|, d)
  {
    DistanceIsMinimal(s, t);
    LevBounds(s, t);
    assert LeastEdits(s, t, Lev(s, t));
    forall d: nat | LeastEdits(s, t, d)
      ensures Share(Similarity(s, t), if |s| < |t| then |t| else |s|, d)
    {
      assert d == Lev(s, t);
      if s != [] || t != [] {
        ShareOf(if |s| < |t| then |t| else |s|, d);
      }
    }
  }

  /** The ratio of two normalised strings, early returns, exchange by length and clamp included. */
  method Ratio(s1: string, s2: string) returns (r: real)
    ensures r == Similarity(s1, s2)
    ensures exists d: nat :: LeastEdits(s1, s2, d)
    ensures forall d: nat :: LeastEdits(s1, s2, d) ==> Share(r, if |s1| < |s2| then |s2| else |s1|, d)
  {
    r := SimilarityOf(s1, s2);
    SimilarityIs(s1, s2);
  }

  method SimilarityOf(s1: string, s2: string) returns (r: real)
    ensures r == Similarity(s1, s2)
  {
    if s1 == [] && s2 == [] {
      return 1.0;
    }
    SimilarityRange(s1, s2);
    if s1 == [] || s2 == [] {
      NothingShared(s1, s2);
      return 0.0;
    }
    if s1 == s2 {
      return 1.0;
    }
    var c1, c2 := s1, s2;
    if |c1| < |c2| {
      c1, c2 := c2, c1;
      LevSymmetric(s1, s2);
    }
    var d := Distance(c1, c2);
    r := 1.0 - d as real / Longest(c1, c2) as real;
    r := if r < 0.0 then 0.0 else r;
  }

  lemma ShareRange(d: nat, n: nat)
    requires d <= n && n > 0
    ensures 0.0 <= d as real / n as real <= 1.0
    ensures d as real / n as real == 0.0 <==> d == 0
  {
    var q := d as real / n as real;
    assert q * n as real == d as real;
  }

  /** The ratio lies in [0, 1] without the clamp, is symmetric, and is 1 exactly for equal strings. */
  lemma SimilarityRange(c1: string, c2: string)
    ensures 0.0 <= Similarity(c1, c2) <= 1.0
    ensures Similarity(c1, c2) == Similarity(c2, c1)
    ensures Similarity(c1, c2) == 1.0 <==> c1 == c2
  {
    LevBounds(c1, c2);
    LevSymmetric(c1, c2);
    LevZero(c1, c2);
    if Longest(c1, c2) > 0 {
      ShareRange(Lev(c1, c2), Longest(c1, c2));
    }
  }

  lemma NothingShared(c1: string, c2: string)
    requires c1 != c2 && (c1 == [] || c2 == [])
    ensures Similarity(c1, c2) == 0.0
  {
    assert Lev(c1, c2) == Longest(c1, c2);
  }
}
