/**
 Cursor pagination in descending order, which the Python client asks for by default. The next page still asks for
 rows later than the cursor, so it turns back to the newest rows.
*/
module PaginationDescending {
  import opened Wrappers
  import opened Pagination

  predicate Descending(page: seq<Stored>) { forall i, j :: 0 <= i < j < |page| ==> Time(page[i]) >= Time(page[j]) }

  /** A possible answer: ORDER BY time DESC in any order among equal times, cut off at the limit. */
  predicate IsPageDown(rows: set<Stored>, cursor: Option<int>, limit: nat, page: seq<Stored>) {
    var eligible := Eligible(rows, cursor);
    && Distinct(page) && Descending(page)
    && |page| == (if |eligible| < limit then |eligible| else limit)
    && (forall i :: 0 <= i < |page| ==> page[i] in eligible)
    && (forall e, i :: e in eligible && e !in page && 0 <= i < |page| ==> Time(e) <= Time(page[i]))
  }

  predicate FollowsDown(rows: set<Stored>, limit: nat, page: seq<Stored>, next: seq<Stored>)
    requires limit > 0
  {
    NextCursor(limit, page).Some? && IsPageDown(rows, NextCursor(limit, page), limit, next)
  }

  /** Following next_cursor from the first page. */
  predicate WalkDown(rows: set<Stored>, limit: nat, pages: seq<seq<Stored>>) {
    && limit > 0 && pages != []
    && IsPageDown(rows, None, limit, pages[0])
    && forall k :: 0 <= k < |pages| - 1 ==> FollowsDown(rows, limit, pages[k], pages[k + 1])
  }

  /** Where the first page ends, if it is full. */
  function End(limit: nat, page: seq<Stored>): int
    requires 0 < limit == |page|
  {
    Time(page[limit - 1])
  }

  lemma AtLeastEnd(limit: nat, page: seq<Stored>, e: Stored)
    requires 0 < limit == |page| && Descending(page) && e in page
    ensures Time(e) >= End(limit, page)
  {
    var i :| 0 <= i < |page| && page[i] == e;
  }

  /** Distinct rows that all lie in a page, its last one excepted, are fewer than the limit. */
  lemma FewerThanPage(limit: nat, page: seq<Stored>, rows: set<Stored>)
    requires 0 < limit == |page| && Distinct(page)
    requires forall e :: e in rows ==> e in page && e != page[limit - 1]
    ensures |rows| < limit
  {
    MembersCount(page);
    assert page[limit - 1] in Members(page);
    SubsetSize(rows, Members(page) - {page[limit - 1]});
  }

  /** Rows later than the end of the first page are on it, before its last row. */
  lemma LaterIsOnFirst(rows: set<Stored>, limit: nat, first: seq<Stored>, e: Stored)
    requires IsPageDown(rows, None, limit, first) && 0 < limit == |first|
    requires e in rows && Time(e) > End(limit, first)
    ensures e in first && e != first[limit - 1]
  {
    assert e in Eligible(rows, None);
  }

  /** After a page that ends at a whole second there is one more page, and it is short. */
  lemma WholeEndStops(rows: set<Stored>, limit: nat, first: seq<Stored>, next: seq<Stored>)
    requires IsPageDown(rows, None, limit, first) && 0 < limit == |first| && End(limit, first) % SECOND == 0
    requires FollowsDown(rows, limit, first, next)
    ensures |next| < limit && forall e :: e in next ==> e in first && Time(e) > End(limit, first)
  {
    var later := Eligible(rows, Some(End(limit, first)));
    forall e | e in later ensures e in first && e != first[limit - 1] {
      LaterIsOnFirst(rows, limit, first, e);
    }
    FewerThanPage(limit, first, later);
  }

  /** The rows of a first page that ends inside a second come after its cursor. */
  lemma FirstIsEligible(rows: set<Stored>, limit: nat, first: seq<Stored>)
    requires IsPageDown(rows, None, limit, first) && 0 < limit == |first| && End(limit, first) % SECOND != 0
    ensures Members(first) <= Eligible(rows, Some(Trunc(End(limit, first))))
    ensures |Eligible(rows, Some(Trunc(End(limit, first))))| >= limit
  {
    forall e | e in first ensures e in Eligible(rows, Some(Trunc(End(limit, first)))) {
      AtLeastEnd(limit, first, e);
      assert e in Eligible(rows, None);
    }
    MembersCount(first);
    SubsetSize(Members(first), Eligible(rows, Some(Trunc(End(limit, first)))));
  }

  /** After a page that ends inside a second comes a full page that ends at the same time. */
  lemma SameEndAgain(rows: set<Stored>, limit: nat, first: seq<Stored>, next: seq<Stored>)
    requires IsPageDown(rows, None, limit, first) && 0 < limit == |first| && End(limit, first) % SECOND != 0
    requires IsPageDown(rows, Some(Trunc(End(limit, first))), limit, next)
    ensures |next| == limit && End(limit, next) == End(limit, first)
  {
    FirstIsEligible(rows, limit, first);
    if End(limit, next) < End(limit, first) {
      if forall e :: e in first ==> e in next {
        forall e | e in Members(first) ensures e in next && e != next[limit - 1] { AtLeastEnd(limit, first, e); }
        FewerThanPage(limit, next, Members(first));
        MembersCount(first);
      } else {
        var e :| e in first && e !in next;
        AtLeastEnd(limit, first, e);
      }
    } else if End(limit, next) > End(limit, first) {
      forall e | e in Members(next) ensures e in first && e != first[limit - 1] {
        AtLeastEnd(limit, next, e);
        assert e in Eligible(rows, Some(Trunc(End(limit, first))));
        LaterIsOnFirst(rows, limit, first, e);
      }
      FewerThanPage(limit, first, Members(next));
      MembersCount(next);
    }
  }

  /** The k-th page of a walk whose first page is full. */
  lemma {:induction false} PageDownAt(rows: set<Stored>, limit: nat, pages: seq<seq<Stored>>, k: nat)
    requires WalkDown(rows, limit, pages) && k < |pages| && |pages[0]| == limit
    ensures End(limit, pages[0]) % SECOND == 0 ==>
      k == 0 || (k == 1 && |pages[1]| < limit && forall e :: e in pages[1] ==> e in pages[0])
    ensures End(limit, pages[0]) % SECOND != 0 ==>
      |pages[k]| == limit && Descending(pages[k]) && End(limit, pages[k]) == End(limit, pages[0])
  {
    if k == 0 {
    } else {
      PageDownAt(rows, limit, pages, k - 1);
      assert FollowsDown(rows, limit, pages[k - 1], pages[k - 1 + 1]);
      if End(limit, pages[0]) % SECOND == 0 {
        WholeEndStops(rows, limit, pages[0], pages[1]);
      } else {
        SameEndAgain(rows, limit, pages[0], pages[k]);
      }
    }
  }

  /** Following the cursor in descending order never gets past the first page: no row older than its last one is ever
      shown, however many pages are asked for. */
  lemma NothingOlderShown(rows: set<Stored>, limit: nat, pages: seq<seq<Stored>>, e: Stored)
    requires WalkDown(rows, limit, pages) && |pages[0]| == limit && Time(e) < End(limit, pages[0])
    ensures !Visited(pages, e)
  {
    if Visited(pages, e) {
      var k :| 0 <= k < |pages| && e in pages[k];
      PageDownAt(rows, limit, pages, k);
      if End(limit, pages[0]) % SECOND == 0 {
        AtLeastEnd(limit, pages[0], e);
      } else {
        AtLeastEnd(limit, pages[k], e);
      }
    }
  }

  /** How such a walk ends: at once if the first page is not full; after one more, short page if it ends at a whole
      second; and otherwise never. */
  lemma DescendingEndsExactly(rows: set<Stored>, limit: nat, pages: seq<seq<Stored>>)
    requires WalkDown(rows, limit, pages)
    ensures |pages[0]| != limit ==> |pages| == 1 && Complete(limit, pages)
    ensures |pages[0]| == limit && End(limit, pages[0]) % SECOND == 0 ==>
      |pages| <= 2 && (Complete(limit, pages) <==> |pages| == 2)
    ensures |pages[0]| == limit && End(limit, pages[0]) % SECOND != 0 ==> !Complete(limit, pages)
  {
    if |pages| > 1 { assert FollowsDown(rows, limit, pages[0], pages[0 + 1]); }
    if |pages[0]| == limit { PageDownAt(rows, limit, pages, |pages| - 1); }
  }

  /** In the last case every walk goes on: its next page can be the first page once more. */
  lemma FirstPageAgain(rows: set<Stored>, limit: nat, pages: seq<seq<Stored>>)
    requires WalkDown(rows, limit, pages) && |pages[0]| == limit && End(limit, pages[0]) % SECOND != 0
    ensures WalkDown(rows, limit, pages + [pages[0]])
  {
    var longer := pages + [pages[0]];
    PageDownAt(rows, limit, pages, |pages| - 1);
    FirstIsEligible(rows, limit, pages[0]);
    forall i | 0 <= i < limit ensures pages[0][i] in Eligible(rows, Some(Trunc(End(limit, pages[0])))) {
      assert pages[0][i] in Members(pages[0]);
    }
    forall e | e in Eligible(rows, Some(Trunc(End(limit, pages[0])))) ensures e in Eligible(rows, None) { }
    assert IsPageDown(rows, Some(Trunc(End(limit, pages[0]))), limit, pages[0]);
    forall k | 0 <= k < |longer| - 1 ensures FollowsDown(rows, limit, longer[k], longer[k + 1]) {
      if k < |pages| - 1 { assert FollowsDown(rows, limit, pages[k], pages[k + 1]); }
    }
  }

  /** A complete walk in descending order shows all rows exactly if they fit on one page. */
  lemma DescendingShowsAllExactly(rows: set<Stored>, limit: nat, pages: seq<seq<Stored>>)
    requires WalkDown(rows, limit, pages) && Complete(limit, pages)
    ensures (forall e :: e in rows ==> Visited(pages, e)) <==> |rows| <= limit
  {
    var first := pages[0];
    DescendingEndsExactly(rows, limit, pages);
    MembersCount(first);
    assert Eligible(rows, None) == rows;
    if |rows| <= limit {
      Equinumerous(Members(first), rows);
      forall e | e in rows ensures Visited(pages, e) { assert e in Members(first); }
    } else if forall e :: e in rows ==> Visited(pages, e) {
      forall e | e in rows ensures e in Members(first) {
        var k :| 0 <= k < |pages| && e in pages[k];
        PageDownAt(rows, limit, pages, k);
      }
      SubsetSize(rows, Members(first));
    }
  }
}
