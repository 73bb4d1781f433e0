/** Keyset pagination of the library's book table: a batched loop refining "every row in id order",
    also while rows come and go between batches. */
module Keyset {

  predicate Increasing(s: seq<int>) {
    forall i, j :: 0 <= i < j < |s| ==> s[i] < s[j]
  }

  // ---------------------------------------------------------------- the query

  ghost function Member<T>(s: set<T>): (x: T)
    requires s != {}
    ensures x in s
  {
    var x :| x in s;
    x
  }

  lemma {:induction false} LeastExists(ids: set<int>)
    requires ids != {}
    ensures exists m :: m in ids && forall i :: i in ids ==> m <= i
  {
    var x := Member(ids);
    if ids == {x} {
      assert x in ids && forall i :: i in ids ==> x <= i;
    } else {
      var rest := ids - {x};
      assert ids == rest + {x};
      LeastExists(rest);
      var m :| m in rest && forall i :: i in rest ==> m <= i;
      var least := if m <= x then m else x;
      assert least in ids && forall i :: i in ids ==> least <= i;
    }
  }

  function Least(ids: set<int>): (m: int)
    requires ids != {}
    ensures m in ids && forall i :: i in ids ==> m <= i
  {
    LeastExists(ids);
    var m :| m in ids && forall i :: i in ids ==> m <= i;
    m
  }

  /** `ORDER BY id ASC`. */
  function Ascending(ids: set<int>): (s: seq<int>)
    ensures Increasing(s) && |s| == |ids|
    ensures forall i :: i in s <==> i in ids
  {
    if ids == {} then [] else
      var m := Least(ids);
      [m] + Ascending(ids - {m})
  }

  /** `WHERE id > last`. */
  function Beyond<R>(table: map<int, R>, last: int): set<int> {
    set i | i in table && last < i
  }

  function Query<R>(table: map<int, R>, last: int, limit: nat): (page: seq<int>)
    ensures Increasing(page) && forall k :: 0 <= k < |page| ==> page[k] in table && last < page[k]
  {
    var ids := Ascending(Beyond(table, last));
    assert forall k :: 0 <= k < |ids| ==> ids[k] in Beyond(table, last);
    if |ids| <= limit then ids else ids[..limit]
  }

  /** A page is never longer than the limit, empty only when nothing is left, shorter than the limit only when it
      holds everything that is left, and leaves no gap before its last row. */
  lemma PageLeavesNoGap<R>(table: map<int, R>, last: int, limit: nat, i: int)
    requires limit > 0 && i in table && last < i
    ensures var page := Query(table, last, limit);
            && Increasing(page) && 0 < |page| <= limit && (forall k :: 0 <= k < |page| ==> last < page[k])
            && (|page| < limit || i <= page[|page| - 1] ==> i in page)
  {
    var ids := Ascending(Beyond(table, last));
    assert i in ids;
    var page := Query(table, last, limit);
    var k :| 0 <= k < |ids| && ids[k] == i;
    if k < |page| {
      assert page[k] == i;
    }
  }

  /** An increasing sequence is determined by its elements. */
  lemma {:induction false} IncreasingUnique(s: seq<int>, t: seq<int>)
    requires Increasing(s) && Increasing(t) && forall i :: i in s <==> i in t
    ensures s == t
  {
    assert s != [] ==> s[0] in s && s[|s| - 1] in s;
    assert t != [] ==> t[0] in t && t[|t| - 1] in t;
    if s != [] && t != [] {
      var s', t' := s[..|s| - 1], t[..|t| - 1];
      assert s[|s| - 1] in t && t[|t| - 1] in s;
      assert s[|s| - 1] == t[|t| - 1];
      forall i
        ensures i in s' <==> i in t'
      {
        assert i in s' ==> i in s && i != s[|s| - 1];
        assert i in t' ==> i in t && i != t[|t| - 1];
      }
      IncreasingUnique(s', t');
    }
  }

  // ---------------------------------------------------------------- the stream

  /** What the k-th query sees: the table may change a finite number of times between queries. */
  function At<R>(tables: seq<map<int, R>>, k: nat): (table: map<int, R>)
    requires tables != []
    ensures k < |tables| ==> table == tables[k]
    ensures k >= |tables| ==> table == tables[|tables| - 1]
  {
    if k < |tables| then tables[k] else tables[|tables| - 1]
  }

  function Ids<R>(items: seq<(int, R)>): seq<int> {
    seq(|items|, k requires 0 <= k < |items| => items[k].0)
  }

  /** Everything emitted so far stood in a table that was read, at the time it was read. */
  ghost predicate Genuine<R>(tables: seq<map<int, R>>, queries: nat, items: seq<(int, R)>)
    requires tables != []
  {
    forall m :: 0 <= m < |items| ==>
      exists k :: 0 <= k < queries && items[m].0 in At(tables, k) && At(tables, k)[items[m].0] == items[m].1
  }

  /** Every row up to `last` that every read so far could see has been emitted. */
  ghost predicate Complete<R>(tables: seq<map<int, R>>, queries: nat, items: seq<(int, R)>, last: int)
    requires tables != []
  {
    forall i :: 0 < i <= last && (forall k :: 0 <= k < queries ==> i in At(tables, k)) ==> i in Ids(items)
  }

  predicate UpTo<R>(table: map<int, R>, last: int) {
    forall i <- table :: i <= last
  }

  /** The id emitted last. */
  function Latest<R>(items: seq<(int, R)>): int {
    if items == [] then 0 else items[|items| - 1].0
  }

  /** The loop's state after some queries. */
  ghost predicate Progress<R>(tables: seq<map<int, R>>, queries: nat, items: seq<(int, R)>, last: int)
    requires tables != []
  {
    && Increasing(Ids(items)) && (forall m :: 0 <= m < |items| ==> 0 < items[m].0 <= last)
    && 0 <= last && Genuine(tables, queries, items) && Complete(tables, queries, items, last)
    && last == Latest(items)
  }

  function Rows<R>(table: map<int, R>, page: seq<int>): seq<(int, R)>
    requires forall k :: 0 <= k < |page| ==> page[k] in table
  {
    seq(|page|, k requires 0 <= k < |page| => (page[k], table[page[k]]))
  }

  lemma GenuineAfterPage<R>(tables: seq<map<int, R>>, k: nat, items: seq<(int, R)>, page: seq<int>)
    requires tables != [] && Genuine(tables, k, items) && forall n :: 0 <= n < |page| ==> page[n] in At(tables, k)
    ensures Genuine(tables, k + 1, items + Rows(At(tables, k), page))
  {
    var items' := items + Rows(At(tables, k), page);
    forall m | 0 <= m < |items'|
      ensures exists q :: 0 <= q < k + 1 && items'[m].0 in At(tables, q) && At(tables, q)[items'[m].0] == items'[m].1
    {
      if m < |items| {
        assert items'[m] == items[m];
        var q :| 0 <= q < k && items[m].0 in At(tables, q) && At(tables, q)[items[m].0] == items[m].1;
      } else {
        assert items'[m].0 in At(tables, k);
      }
    }
  }

  lemma CompleteAfterPage<R>(tables: seq<map<int, R>>, k: nat, items: seq<(int, R)>, last: int, limit: nat)
    requires tables != [] && limit > 0 && Complete(tables, k, items, last)
    requires Query(At(tables, k), last, limit) != []
    ensures var page := Query(At(tables, k), last, limit);
            Complete(tables, k + 1, items + Rows(At(tables, k), page), page[|page| - 1])
  {
    var page := Query(At(tables, k), last, limit);
    var items' := items + Rows(At(tables, k), page);
    assert Ids(items') == Ids(items) + page;
    forall i | 0 < i <= page[|page| - 1] && (forall m :: 0 <= m < k + 1 ==> i in At(tables, m))
      ensures i in Ids(items')
    {
      assert forall m :: 0 <= m < k ==> i in At(tables, m);
      if last < i {
        PageLeavesNoGap(At(tables, k), last, limit, i);
      }
    }
  }

  lemma OrderAfterPage<R>(table: map<int, R>, items: seq<(int, R)>, page: seq<int>, last: int)
    requires Increasing(Ids(items)) && (forall m :: 0 <= m < |items| ==> 0 < items[m].0 <= last) && 0 <= last
    requires Increasing(page) && page != [] && forall k :: 0 <= k < |page| ==> page[k] in table && last < page[k]
    ensures var items' := items + Rows(table, page);
            Increasing(Ids(items')) && forall m :: 0 <= m < |items'| ==> 0 < items'[m].0 <= page[|page| - 1]
  {
    var ids := Ids(items);
    assert forall m :: 0 <= m < |ids| ==> ids[m] <= last;
    assert Increasing(ids + page);
    assert Ids(items + Rows(table, page)) == ids + page;
  }

  /** A page brings the loop from one state to the next. */
  lemma PageAdvances<R>(tables: seq<map<int, R>>, k: nat, items: seq<(int, R)>, last: int, limit: nat)
    requires tables != [] && limit > 0 && Progress(tables, k, items, last) && Query(At(tables, k), last, limit) != []
    ensures var page := Query(At(tables, k), last, limit);
            Progress(tables, k + 1, items + Rows(At(tables, k), page), page[|page| - 1])
  {
    var page := Query(At(tables, k), last, limit);
    GenuineAfterPage(tables, k, items, page);
    CompleteAfterPage(tables, k, items, last, limit);
    OrderAfterPage(At(tables, k), items, page, last);
    LatestAfterPage(At(tables, k), items, page);
  }

  lemma LatestAfterPage<R>(table: map<int, R>, items: seq<(int, R)>, page: seq<int>)
    requires page != [] && forall k :: 0 <= k < |page| ==> page[k] in table
    ensures Latest(items + Rows(table, page)) == page[|page| - 1]
  {
  }

  /** An empty page means that the table it was read from has no row beyond. */
  lemma NothingBeyond<R>(table: map<int, R>, last: int, limit: nat)
    requires limit > 0 && Query(table, last, limit) == []
    ensures UpTo(table, last)
  {
    forall i <- table
      ensures i <= last
    {
      if last < i {
        PageLeavesNoGap(table, last, limit, i);
      }
    }
  }

  /** An empty page ends the stream with nothing missing. */
  lemma NothingMissing<R>(tables: seq<map<int, R>>, k: nat, items: seq<(int, R)>, last: int, limit: nat, i: int)
    requires tables != [] && limit > 0 && Complete(tables, k, items, last) && Query(At(tables, k), last, limit) == []
    requires 0 < i && forall m :: 0 <= m < k + 1 ==> i in At(tables, m)
    ensures i in Ids(items)
  {
    assert i in At(tables, k);
    assert forall m :: 0 <= m < k ==> i in At(tables, m);
    if last < i {
      PageLeavesNoGap(At(tables, k), last, limit, i);
    }
  }

  /** The positive ids of a table, in order. */
  function PositiveIds<R>(table: map<int, R>): (ids: seq<int>)
    ensures Increasing(ids) && forall k :: 0 <= k < |ids| ==> ids[k] in table
    ensures forall i :: i in ids <==> i in table && 0 < i
  {
    var ids := Ascending(Beyond(table, 0));
    assert forall k :: 0 <= k < |ids| ==> ids[k] in Beyond(table, 0);
    ids
  }

  /** Reading one unchanging table gives exactly its positive rows, in id order. */
  lemma FixedTable<R>(table: map<int, R>, items: seq<(int, R)>)
    requires Increasing(Ids(items))
    requires forall m :: 0 <= m < |items| ==> 0 < items[m].0 && items[m].0 in table && table[items[m].0] == items[m].1
    requires forall i :: 0 < i && i in table ==> i in Ids(items)
    ensures items == Rows(table, PositiveIds(table))
  {
    var ids, all := Ids(items), PositiveIds(table);
    forall i
      ensures i in ids <==> i in all
    {
      if i in ids {
        var m :| 0 <= m < |ids| && ids[m] == i;
        assert items[m].0 in table;
      }
    }
    IncreasingUnique(ids, all);
    assert forall m :: 0 <= m < |items| ==> items[m].0 == ids[m];
  }

  lemma GenuineFixed<R>(tables: seq<map<int, R>>, queries: nat, items: seq<(int, R)>, m: nat)
    requires |tables| == 1 && Genuine(tables, queries, items) && m < |items|
    ensures items[m].0 in tables[0] && tables[0][items[m].0] == items[m].1
  {
  }

  /** What holds when a query comes back empty. */
  lemma Finished<R>(tables: seq<map<int, R>>, k: nat, items: seq<(int, R)>, last: int, limit: nat)
    requires tables != [] && limit > 0 && Progress(tables, k, items, last) && Query(At(tables, k), last, limit) == []
    ensures Streams(tables, k + 1, items)
    ensures |tables| == 1 ==> items == Rows(tables[0], PositiveIds(tables[0]))
  {
    FinishedStreams(tables, k, items, last, limit);
    if |tables| == 1 {
      FinishedFixed(tables, k, items, last, limit);
    }
  }

  lemma FinishedStreams<R>(tables: seq<map<int, R>>, k: nat, items: seq<(int, R)>, last: int, limit: nat)
    requires tables != [] && limit > 0 && Progress(tables, k, items, last) && Query(At(tables, k), last, limit) == []
    ensures Streams(tables, k + 1, items)
  {
    forall i | 0 < i && (forall q :: 0 <= q < k + 1 ==> i in At(tables, q))
      ensures i in Ids(items)
    {
      NothingMissing(tables, k, items, last, limit, i);
    }
    NothingBeyond(At(tables, k), last, limit);
    GenuineAfterPage(tables, k, items, []);
    assert items + Rows(At(tables, k), []) == items;
  }

  lemma FinishedFixed<R>(tables: seq<map<int, R>>, k: nat, items: seq<(int, R)>, last: int, limit: nat)
    requires |tables| == 1 && limit > 0 && Progress(tables, k, items, last) && Query(At(tables, k), last, limit) == []
    ensures items == Rows(tables[0], PositiveIds(tables[0]))
  {
    forall i | 0 < i && i in tables[0]
      ensures i in Ids(items)
    {
      NothingMissing(tables, k, items, last, limit, i);
    }
    forall m | 0 <= m < |items|
      ensures items[m].0 in tables[0] && tables[0][items[m].0] == items[m].1
    {
      GenuineFixed(tables, k, items, m);
    }
    FixedTable(tables[0], items);
  }

  lemma BeyondShrinks<R>(table: map<int, R>, last: int, next: int)
    requires last < next && next in table
    ensures |Beyond(table, next)| < |Beyond(table, last)|
  {
    var more, less := Beyond(table, last), Beyond(table, next);
    assert next in more && next !in less && less <= more;
    assert more == less + (more - less);
    assert next in more - less;
  }

  /** The items come in strictly increasing id order, each stood in a table that was read, every positive id
      that all the reads could see is among them, and the table read last has no positive id beyond them. */
  ghost predicate Streams<R>(tables: seq<map<int, R>>, queries: nat, items: seq<(int, R)>)
    requires tables != []
  {
    && Increasing(Ids(items)) && Genuine(tables, queries, items)
    && queries > 0 && UpTo(At(tables, queries - 1), Latest(items))
    && forall i :: 0 < i && (forall k :: 0 <= k < queries ==> i in At(tables, k)) ==> i in Ids(items)
  }

  datatype Outcome<R> = BadBatchSize | Streamed(items: seq<(int, R)>)

  /** The stream of books, for tables that may differ from one query to the next. A table that never
      changes is emitted exactly: each positive id once, in id order. */
  method StreamBooks<R>(tables: seq<map<int, R>>, batchSize: int) returns (r: Outcome<R>, queries: nat)
    requires tables != []
    ensures r.BadBatchSize? <==> batchSize <= 0
    ensures r.Streamed? ==> Streams(tables, queries, r.items)
    ensures r.Streamed? && |tables| == 1 ==> r.items == Rows(tables[0], PositiveIds(tables[0]))
  {
    queries := 0;
    if batchSize <= 0 {
      return BadBatchSize, queries;
    }
    var items: seq<(int, R)> := [];
    var last := 0;
    while true
      invariant Progress(tables, queries, items, last)
      decreases if queries < |tables| then |tables| - queries else 0, |Beyond(tables[|tables| - 1], last)|
    {
      var table := At(tables, queries);
      var page := Query(table, last, batchSize);
      if page == [] {
        Finished(tables, queries, items, last, batchSize);
        return Streamed(items), queries + 1;
      }
      PageAdvances(tables, queries, items, last, batchSize);
      BeyondShrinks(table, last, page[|page| - 1]);
      items, last := Emit(table, page, items, last);
      queries := queries + 1;
    }
  }

  /** Emit the rows of one page, remembering the last id. */
  method Emit<R>(table: map<int, R>, page: seq<int>, before: seq<(int, R)>, start: int)
    returns (items: seq<(int, R)>, last: int)
    requires forall k :: 0 <= k < |page| ==> page[k] in table
    ensures items == before + Rows(table, page) && last == if page == [] then start else page[|page| - 1]
  {
    items, last := before, start;
    for n := 0 to |page|
      invariant items == before + Rows(table, page[..n]) && last == if n == 0 then start else page[n - 1]
    {
      last := page[n];
      items := items + [(page[n], table[page[n]])];
      assert Rows(table, page[..n + 1]) == Rows(table, page[..n]) + [(page[n], table[page[n]])];
    }
    assert page[..|page|] == page;
  }
}
