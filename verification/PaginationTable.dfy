/**
 What following the cursor does to a table, said of the table and the limit alone: where the pages end,
 and exactly when rows are lost, shown twice, or shown once each in order.
*/
module PaginationTable {
  import opened Wrappers
  import opened Pagination

  // ---- Where the pages end ----------------------------------------------------------------------

  /** `t` is the n-th earliest of the times of the rows. */
  predicate IsNth(rows: set<Stored>, n: nat, t: int) {
    |Earlier(rows, t)| < n <= |UpTo(rows, t)|
  }

  lemma NthIsUnique(rows: set<Stored>, n: nat, t: int, u: int)
    requires IsNth(rows, n, t) && IsNth(rows, n, u)
    ensures t == u
  {
    if t < u {
      SubsetSize(UpTo(rows, t), Earlier(rows, u));
    } else if u < t {
      SubsetSize(UpTo(rows, u), Earlier(rows, t));
    }
  }

  /** The time of the last row of a full page: the limit-th earliest eligible time, if there are that many rows. */
  ghost function PageEnd(rows: set<Stored>, cursor: Option<int>, limit: nat): Option<int> {
    if exists t :: IsNth(Eligible(rows, cursor), limit, t) then
      var t :| IsNth(Eligible(rows, cursor), limit, t);
      Some(t)
    else None
  }

  lemma PageEndIs(rows: set<Stored>, cursor: Option<int>, limit: nat, page: seq<Stored>)
    requires limit > 0 && IsPage(rows, cursor, limit, page)
    ensures PageEnd(rows, cursor, limit) == if |page| == limit then Some(Time(page[limit - 1])) else None
  {
    var eligible := Eligible(rows, cursor);
    if |page| == limit {
      var last := page[limit - 1];
      MembersCount(page);
      assert last in Members(page) && last in eligible;
      SubsetSize(Earlier(eligible, Time(last)), Members(page) - {last});
      SubsetSize(Members(page), UpTo(eligible, Time(last)));
      assert IsNth(eligible, limit, Time(last));
      forall t | IsNth(eligible, limit, t) ensures t == Time(last) { NthIsUnique(eligible, limit, t, Time(last)); }
    } else {
      forall t ensures !IsNth(eligible, limit, t) { SubsetSize(UpTo(eligible, t), eligible); }
    }
  }

  /** The time at which page k ends, or None if page k is the short last one or there is no page k. */
  ghost function TableEnd(rows: set<Stored>, limit: nat, k: nat): Option<int>
    decreases k, 1
  {
    if k == 0 then PageEnd(rows, None, limit)
    else if TableEnd(rows, limit, k - 1).None? then None
    else PageEnd(rows, TableCursor(rows, limit, k), limit)
  }

  /** The cursor that asks for page k. */
  ghost function TableCursor(rows: set<Stored>, limit: nat, k: nat): Option<int>
    decreases k, 0
  {
    if k == 0 || TableEnd(rows, limit, k - 1).None? then None else Some(Trunc(TableEnd(rows, limit, k - 1).value))
  }

  /** Every walk of the table takes these cursors, whatever the order among rows with equal times. */
  lemma {:induction false} CursorsOfTable(rows: set<Stored>, limit: nat, pages: seq<seq<Stored>>, k: nat)
    requires Walk(rows, limit, pages) && k < |pages|
    ensures CursorAt(limit, pages, k) == TableCursor(rows, limit, k)
    ensures TableEnd(rows, limit, k) == if |pages[k]| == limit then Some(Time(pages[k][limit - 1])) else None
    ensures CursorAt(limit, pages, k + 1) == TableCursor(rows, limit, k + 1)
  {
    if k == 0 {
    } else {
      CursorsOfTable(rows, limit, pages, k - 1);
      PageAt(rows, limit, pages, k);
    }
    PageAt(rows, limit, pages, k);
    PageEndIs(rows, CursorAt(limit, pages, k), limit, pages[k]);
  }

  lemma {:induction false} NoPageAfter(rows: set<Stored>, limit: nat, j: nat, k: nat)
    requires TableEnd(rows, limit, j).None? && j <= k
    ensures TableEnd(rows, limit, k).None?
  {
    if j == k {
    } else {
      NoPageAfter(rows, limit, j, k - 1);
    }
  }

  /** A complete walk has one page for every k at which the table has a full page, and the short one. */
  lemma PagesOfTable(rows: set<Stored>, limit: nat, pages: seq<seq<Stored>>, k: nat)
    requires Walk(rows, limit, pages) && Complete(limit, pages)
    ensures TableEnd(rows, limit, k).Some? <==> k < |pages| - 1
  {
    var n := |pages| - 1;
    CursorsOfTable(rows, limit, pages, n);
    if k < n {
      CursorsOfTable(rows, limit, pages, k);
      PageAt(rows, limit, pages, k + 1);
    } else {
      NoPageAfter(rows, limit, n, k);
    }
  }

  /** All complete walks of a table have the same number of pages and the same cursors. */
  lemma WalksAgree(rows: set<Stored>, limit: nat, pages: seq<seq<Stored>>, others: seq<seq<Stored>>)
    requires Walk(rows, limit, pages) && Complete(limit, pages) && Walk(rows, limit, others) && Complete(limit, others)
    ensures |pages| == |others| && forall k :: 0 <= k < |pages| ==>
        CursorAt(limit, pages, k) == CursorAt(limit, others, k)
  {
    PagesOfTable(rows, limit, pages, |others| - 1);
    PagesOfTable(rows, limit, others, |others| - 1);
    PagesOfTable(rows, limit, pages, |pages| - 1);
    PagesOfTable(rows, limit, others, |pages| - 1);
    forall k | 0 <= k < |pages| ensures CursorAt(limit, pages, k) == CursorAt(limit, others, k) {
      CursorsOfTable(rows, limit, pages, k);
      CursorsOfTable(rows, limit, others, k);
    }
  }

  // ---- Rows lost --------------------------------------------------------------------------------

  /** Page k is full and ends inside a group of rows that share a whole second. */
  ghost predicate PageSplits(rows: set<Stored>, limit: nat, k: nat) {
    && TableEnd(rows, limit, k).Some?
    && TableEnd(rows, limit, k).value % SECOND == 0
    && |UpTo(Eligible(rows, TableCursor(rows, limit, k)), TableEnd(rows, limit, k).value)| > limit
  }

  lemma SplitIsTableSplit(rows: set<Stored>, limit: nat, pages: seq<seq<Stored>>, k: nat, t: int)
    requires Walk(rows, limit, pages) && k < |pages| && SplitsAt(rows, CursorAt(limit, pages, k), limit, t)
    ensures PageSplits(rows, limit, k)
  {
    PageAt(rows, limit, pages, k);
    CursorsOfTable(rows, limit, pages, k);
    PageEndIs(rows, CursorAt(limit, pages, k), limit, pages[k]);
    var eligible := Eligible(rows, CursorAt(limit, pages, k));
    SubsetSize(UpTo(eligible, t), eligible);
    assert IsNth(eligible, limit, t);
    forall u | IsNth(eligible, limit, u) ensures u == t { NthIsUnique(eligible, limit, u, t); }
  }

  lemma TableSplitIsSplit(rows: set<Stored>, limit: nat, pages: seq<seq<Stored>>, k: nat)
    requires Walk(rows, limit, pages) && Complete(limit, pages) && PageSplits(rows, limit, k)
    ensures k < |pages| && SplitsAt(rows, CursorAt(limit, pages, k), limit, TableEnd(rows, limit, k).value)
  {
    PagesOfTable(rows, limit, pages, k);
    CursorsOfTable(rows, limit, pages, k);
    PageAt(rows, limit, pages, k);
    var eligible, last := Eligible(rows, CursorAt(limit, pages, k)), pages[k][limit - 1];
    MembersCount(pages[k]);
    SubsetSize(Earlier(eligible, Time(last)), Members(pages[k]) - {last});
  }

  /** Following the cursor to its end shows every matching row if and only if no full page of the table ends inside a
      group of rows that share a whole second. */
  lemma AllShownExactly(rows: set<Stored>, limit: nat, pages: seq<seq<Stored>>)
    requires Walk(rows, limit, pages) && Complete(limit, pages)
    ensures (forall e :: e in rows ==> Visited(pages, e)) <==> forall k: nat :: !PageSplits(rows, limit, k)
  {
    AllVisitedAlong(rows, limit, pages);
    if k: nat :| PageSplits(rows, limit, k) {
      TableSplitIsSplit(rows, limit, pages, k);
    }
    if k: nat, t :| k < |pages| && SplitsAt(rows, CursorAt(limit, pages, k), limit, t) {
      SplitIsTableSplit(rows, limit, pages, k, t);
    }
  }

  // ---- Rows shown twice -------------------------------------------------------------------------

  /** No row is on two pages. */
  predicate NoneTwice(pages: seq<seq<Stored>>) {
    forall j, k, e :: 0 <= j < k < |pages| && e in pages[j] ==> e !in pages[k]
  }

  /** Every full page of the table ends at a whole second. */
  ghost predicate WholeEnds(rows: set<Stored>, limit: nat) {
    forall k: nat :: TableEnd(rows, limit, k).Some? ==> TableEnd(rows, limit, k).value % SECOND == 0
  }

  /** A page from a whole-second cursor shows all rows of the second it starts in, unless that second is dense. */
  lemma FirstSecondIsShown(rows: set<Stored>, from: int, limit: nat, page: seq<Stored>, e: Stored)
    requires limit > 0 && IsPage(rows, Some(from), limit, page) && |Inside(rows, from)| < limit
        && e in Inside(rows, from)
    ensures e in page
  {
    if |page| < limit {
      ShortPageIsAll(rows, Some(from), limit, page, e);
    } else if e !in page {
      MembersCount(page);
      assert Members(page) <= Inside(rows, from);
      SubsetSize(Members(page), Inside(rows, from));
    }
  }

  /** The last row of a page that does not end at a whole second is shown again. */
  lemma LastShownAgain(rows: set<Stored>, limit: nat, pages: seq<seq<Stored>>, k: nat)
    requires Walk(rows, limit, pages) && Complete(limit, pages) && k + 1 < |pages|
    requires TableEnd(rows, limit, k).Some? && TableEnd(rows, limit, k).value % SECOND != 0
    ensures !NoneTwice(pages)
  {
    CursorsOfTable(rows, limit, pages, k);
    PageAt(rows, limit, pages, k);
    PageAt(rows, limit, pages, k + 1);
    var last := pages[k][limit - 1];
    var from := Trunc(Time(last));
    assert last in Eligible(rows, CursorAt(limit, pages, k));
    InsideItsSecond(rows, last);
    NoSecondDense(rows, limit, pages, from);
    FirstSecondIsShown(rows, from, limit, pages[k + 1], last);
    assert last in pages[k];
  }

  lemma InsideItsSecond(rows: set<Stored>, e: Stored)
    requires e in rows && Time(e) % SECOND != 0
    ensures Trunc(Time(e)) % SECOND == 0 && e in Inside(rows, Trunc(Time(e)))
  {
  }

  lemma NoSecondDense(rows: set<Stored>, limit: nat, pages: seq<seq<Stored>>, from: int)
    requires Walk(rows, limit, pages) && Complete(limit, pages) && from % SECOND == 0
    ensures |Inside(rows, from)| < limit
  {
    WalksEndExactly(rows, limit);
  }

  /** A page that ends at a whole second has no row beyond its cursor. */
  lemma PageUpToCursor(rows: set<Stored>, limit: nat, pages: seq<seq<Stored>>, j: nat, e: Stored)
    requires Walk(rows, limit, pages) && WholeEnds(rows, limit) && j + 1 < |pages| && e in pages[j]
    ensures CursorAt(limit, pages, j + 1).Some? && Time(e) <= CursorAt(limit, pages, j + 1).value
  {
    PageAt(rows, limit, pages, j);
    PageAt(rows, limit, pages, j + 1);
    CursorsOfTable(rows, limit, pages, j);
    var i :| 0 <= i < |pages[j]| && pages[j][i] == e;
    assert i < limit - 1 ==> Time(pages[j][i]) <= Time(pages[j][limit - 1]);
  }

  lemma UpToCursor(rows: set<Stored>, limit: nat, pages: seq<seq<Stored>>, j: nat, k: nat, e: Stored)
    requires Walk(rows, limit, pages) && WholeEnds(rows, limit) && j < k < |pages| && e in pages[j]
    ensures CursorAt(limit, pages, k).Some? && Time(e) <= CursorAt(limit, pages, k).value
  {
    PageUpToCursor(rows, limit, pages, j, e);
    PageAt(rows, limit, pages, k);
    CursorsAscend(rows, limit, pages, j + 1, k);
  }

  /** Following the cursor to its end shows no row twice if and only if every full page of the table ends at a whole
      second. */
  lemma NoneTwiceExactly(rows: set<Stored>, limit: nat, pages: seq<seq<Stored>>)
    requires Walk(rows, limit, pages) && Complete(limit, pages)
    ensures NoneTwice(pages) <==> WholeEnds(rows, limit)
  {
    if WholeEnds(rows, limit) {
      forall j, k, e | 0 <= j < k < |pages| && e in pages[j] ensures e !in pages[k] {
        UpToCursor(rows, limit, pages, j, k, e);
        PageAt(rows, limit, pages, k);
      }
    } else {
      var k: nat :| TableEnd(rows, limit, k).Some? && TableEnd(rows, limit, k).value % SECOND != 0;
      PagesOfTable(rows, limit, pages, k);
      LastShownAgain(rows, limit, pages, k);
    }
  }

  /** Three rows at 0, 1.5 and 2 seconds, two a page: the walk ends and shows the second row twice. */
  lemma RowShownTwice(a: Stored, e: Stored, b: Stored)
    requires Time(a) == 0 && Time(e) == 1_500_000_000 && Time(b) == 2 * SECOND
    ensures Walk({a, e, b}, 2, [[a, e], [e, b], []]) && Complete(2, [[a, e], [e, b], []])
    ensures !NoneTwice([[a, e], [e, b], []])
  {
    var rows, pages := {a, e, b}, [[a, e], [e, b], []];
    assert e in pages[0] && e in pages[1];
    FirstTwoPages(a, e, b);
    assert IsPage(rows, Some(2 * SECOND), 2, []) by {
      assert Eligible(rows, Some(2 * SECOND)) == {};
    }
    assert Follows(rows, 2, pages[0], pages[1]);
    assert Follows(rows, 2, pages[1], pages[2]);
  }

  lemma FirstTwoPages(a: Stored, e: Stored, b: Stored)
    requires Time(a) == 0 && Time(e) == 1_500_000_000 && Time(b) == 2 * SECOND
    ensures IsPage({a, e, b}, None, 2, [a, e]) && NextCursor(2, [a, e]) == Some(SECOND)
    ensures IsPage({a, e, b}, Some(SECOND), 2, [e, b]) && NextCursor(2, [e, b]) == Some(2 * SECOND)
  {
    assert Eligible({a, e, b}, None) == {a, e} + {b};
    PairIsPage({a, e, b}, None, a, e, {b});
    assert Eligible({a, e, b}, Some(SECOND)) == {e, b} + {};
    PairIsPage({a, e, b}, Some(SECOND), e, b, {});
  }

  /** The two earliest eligible rows are a page of two. */
  lemma PairIsPage(rows: set<Stored>, cursor: Option<int>, a: Stored, b: Stored, rest: set<Stored>)
    requires a != b && Time(a) <= Time(b) && Eligible(rows, cursor) == {a, b} + rest && forall e :: e in rest ==>
        Time(b) <= Time(e)
    ensures IsPage(rows, cursor, 2, [a, b])
  {
    SubsetSize({a, b}, {a, b} + rest);
  }

  // ---- Rows shown once each, in order -----------------------------------------------------------

  function Concat(pages: seq<seq<Stored>>): seq<Stored> {
    if pages == [] then [] else Concat(pages[..|pages| - 1]) + pages[|pages| - 1]
  }

  /** The pages put together are the matching rows, each once, in ascending order. */
  ghost predicate OnceInOrder(rows: set<Stored>, pages: seq<seq<Stored>>) {
    && Distinct(Concat(pages)) && Ascending(Concat(pages))
    && forall e :: e in rows <==> e in Concat(pages)
  }

  lemma {:induction false} ConcatMembers(pages: seq<seq<Stored>>, k: nat, e: Stored)
    requires k <= |pages|
    ensures e in Concat(pages[..k]) <==> VisitedBefore(pages, k, e)
  {
    if k == 0 {
    } else {
      ConcatMembers(pages, k - 1, e);
      assert pages[..k][..k - 1] == pages[..k - 1];
    }
  }

  lemma WalkMembers(rows: set<Stored>, limit: nat, pages: seq<seq<Stored>>)
    requires Walk(rows, limit, pages)
    ensures forall e :: e in Concat(pages) <==> Visited(pages, e)
    ensures forall e :: Visited(pages, e) ==> e in rows
  {
    assert pages[..|pages|] == pages;
    forall e ensures e in Concat(pages) <==> Visited(pages, e) { ConcatMembers(pages, |pages|, e); }
    forall e | Visited(pages, e) ensures e in rows {
      var k :| 0 <= k < |pages| && e in pages[k];
      PageAt(rows, limit, pages, k);
    }
  }

  lemma AppendInOrder(xs: seq<Stored>, ys: seq<Stored>, bound: int)
    requires Distinct(xs) && Ascending(xs) && Distinct(ys) && Ascending(ys)
    requires xs == [] || ((forall e :: e in xs ==> Time(e) <= bound) && (forall e :: e in ys ==> bound < Time(e)))
    ensures Distinct(xs + ys) && Ascending(xs + ys)
  {
    var zs := xs + ys;
    forall i, j | 0 <= i < j < |zs| ensures zs[i] != zs[j] && Time(zs[i]) <= Time(zs[j]) {
      if i < |xs| <= j { assert zs[i] in xs && zs[j] in ys; }
    }
  }

  lemma {:induction false} PagesInOrder(rows: set<Stored>, limit: nat, pages: seq<seq<Stored>>, k: nat)
    requires Walk(rows, limit, pages) && WholeEnds(rows, limit) && k <= |pages|
    ensures Distinct(Concat(pages[..k])) && Ascending(Concat(pages[..k]))
  {
    if k == 0 {
    } else {
      PagesInOrder(rows, limit, pages, k - 1);
      PageAt(rows, limit, pages, k - 1);
      var before, page := Concat(pages[..k - 1]), pages[k - 1];
      assert pages[..k][..k - 1] == pages[..k - 1];
      forall e | e in before
          ensures k > 1 && CursorAt(limit, pages, k - 1).Some? && Time(e) <= CursorAt(limit, pages, k - 1).value {
        ConcatMembers(pages, k - 1, e);
        var j :| 0 <= j < k - 1 && e in pages[j];
        UpToCursor(rows, limit, pages, j, k - 1, e);
      }
      AppendInOrder(before, page, if k > 1 && CursorAt(limit, pages, k - 1).Some?
          then CursorAt(limit, pages, k - 1).value else 0);
    }
  }

  /** Pages with a row in common do not make a list of distinct rows. */
  lemma {:induction false} TwiceIsNotDistinct(pages: seq<seq<Stored>>, j: nat, k: nat, e: Stored)
    requires j < k < |pages| && e in pages[j] && e in pages[k]
    ensures !Distinct(Concat(pages))
    decreases |pages|
  {
    var init, last := pages[..|pages| - 1], pages[|pages| - 1];
    var xs := Concat(init);
    if k < |pages| - 1 {
      TwiceIsNotDistinct(init, j, k, e);
      var a, b :| 0 <= a < b < |xs| && xs[a] == xs[b];
      assert (xs + last)[a] == (xs + last)[b];
    } else {
      ConcatMembers(init, |init|, e);
      assert init[..|init|] == init && init[j] == pages[j];
      var a :| 0 <= a < |xs| && xs[a] == e;
      var b :| 0 <= b < |last| && last[b] == e;
      assert (xs + last)[a] == (xs + last)[|xs| + b];
    }
  }

  /** Following the cursor to its end shows every matching row exactly once, in order, if and only if every full page
      of the table ends at a whole second and takes all rows of that second. */
  lemma OnceInOrderExactly(rows: set<Stored>, limit: nat, pages: seq<seq<Stored>>)
    requires Walk(rows, limit, pages) && Complete(limit, pages)
    ensures OnceInOrder(rows, pages) <==> WholeEnds(rows, limit) && forall k: nat :: !PageSplits(rows, limit, k)
  {
    WalkMembers(rows, limit, pages);
    AllShownExactly(rows, limit, pages);
    NoneTwiceExactly(rows, limit, pages);
    if WholeEnds(rows, limit) {
      PagesInOrder(rows, limit, pages, |pages|);
      assert pages[..|pages|] == pages;
    } else {
      var j, k, e :| 0 <= j < k < |pages| && e in pages[j] && e in pages[k];
      TwiceIsNotDistinct(pages, j, k, e);
    }
  }

  // ---- Distinct whole seconds -------------------------------------------------------------------

  /** Every timestamp is a whole second and no two are equal. */
  predicate DistinctSeconds(rows: set<Stored>) {
    && (forall e :: e in rows ==> Time(e) % SECOND == 0)
    && (forall e, f :: e in rows && f in rows && e != f ==> Time(e) != Time(f))
  }

  /** With distinct whole-second timestamps following the cursor ends, with every row shown once, in order. */
  lemma EachRowOnceInOrder(rows: set<Stored>, limit: nat, pages: seq<seq<Stored>>)
    requires Walk(rows, limit, pages) && Complete(limit, pages) && DistinctSeconds(rows)
    ensures OnceInOrder(rows, pages) && !Dense(rows, limit)
  {
    forall from | from % SECOND == 0 ensures Inside(rows, from) == {} { }
    forall k: nat | TableEnd(rows, limit, k).Some? ensures TableEnd(rows, limit, k).value % SECOND == 0 {
      PagesOfTable(rows, limit, pages, k);
      CursorsOfTable(rows, limit, pages, k);
      PageAt(rows, limit, pages, k);
      assert pages[k][limit - 1] in Eligible(rows, CursorAt(limit, pages, k));
    }
    CompleteWalkVisitsAll(rows, limit, pages);
    AllShownExactly(rows, limit, pages);
    OnceInOrderExactly(rows, limit, pages);
  }
}
