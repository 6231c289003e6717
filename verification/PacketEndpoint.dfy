/** Requests for packets end to end: the emitted statement, its answers, and the pages that following the cursor
    gives. */
module PacketEndpoint {
  import opened Wrappers
  import opened Text
  import opened Capture
  import opened PacketFilters
  import opened PacketQuery
  import opened Pagination
  import opened PaginationDescending

  // ---- Columns ----------------------------------------------------------------------------------

  /** The column mapper registered under a name. */
  function ColumnOf(name: string): Option<Column> {
    match name
    case "time" => Some(TimestampCol)
    case "src_ip" => Some(SrcIpCol)
    case "dst_ip" => Some(DstIpCol)
    case "src_port" => Some(SrcPortCol)
    case "dst_port" => Some(DstPortCol)
    case "protocol" => Some(ProtocolCol)
    case "length" => Some(LengthCol)
    case "tcp_flags" => Some(TcpFlagsCol)
    case "job_id" => Some(JobIdCol)
    case _ => None
  }

  /** The names with a mapper are those that validation lets through, and no two share one. */
  lemma ColumnNames()
    ensures forall name :: ColumnOf(name).Some? <==> ValidField(name)
    ensures forall a, b :: ColumnOf(a).Some? && ColumnOf(a) == ColumnOf(b) ==> a == b
  {
  }

  predicate Known(names: seq<string>) { forall i :: 0 <= i < |names| ==> ColumnOf(names[i]).Some? }

  function ColumnList(names: seq<string>): (columns: seq<Column>)
    requires Known(names)
    ensures |columns| == |names|
  {
    seq(|names|, i requires 0 <= i < |names| => ColumnOf(names[i]).value)
  }

  // ---- Answers ----------------------------------------------------------------------------------

  /** How a row's field compares with an argument; for times, "later than" means later. */
  ghost predicate ComparesTimes(sat: (Stored, string, string, Arg) -> bool) {
    forall e, t :: sat(e, "time", ">", TimeArg(t)) <==> Time(e) > t
  }

  predicate Matches(e: Stored, filters: seq<Filter>, sat: (Stored, string, string, Arg) -> bool) {
    forall i :: 0 <= i < |filters| ==> sat(e, filters[i].field, filters[i].operator, TextArg(filters[i].value))
  }

  /** The rows that satisfy all filters. */
  function Matching(rows: set<Stored>, filters: seq<Filter>, sat: (Stored, string, string, Arg) -> bool): set<Stored> {
    set e | e in rows && Matches(e, filters, sat)
  }

  /** How a field with numbers compares with an argument that is printed as one. */
  ghost predicate ComparesNumbers(sat: (Stored, string, string, Arg) -> bool, field: string, number: Stored -> int) {
    forall e, operator, n :: sat(e, field, operator, TextArg(FormatInt(n))) <==> Compare(operator, number(e), n)
  }

  /** A filter entry on such a field, as ResolveFilters reads it, keeps exactly the rows it asks for. */
  lemma NumberFilterKeeps(sat: (Stored, string, string, Arg) -> bool, field: string, number: Stored -> int, op: string,
      n: int, f: Filter, rows: set<Stored>)
    requires ComparesNumbers(sat, field, number) && ':' !in field && ':' !in op
    requires Obeys(Encode(field, op, FormatInt(n)), f)
    ensures op == "eq" ==> Matching(rows, [f], sat) == set e | e in rows && number(e) == n
    ensures op == "ne" ==> Matching(rows, [f], sat) == set e | e in rows && number(e) != n
    ensures op == "gt" ==> Matching(rows, [f], sat) == set e | e in rows && number(e) > n
    ensures op == "lt" ==> Matching(rows, [f], sat) == set e | e in rows && number(e) < n
    ensures op == "gte" ==> Matching(rows, [f], sat) == set e | e in rows && number(e) >= n
    ensures op == "lte" ==> Matching(rows, [f], sat) == set e | e in rows && number(e) <= n
  {
    assert AsAsked(field, op, FormatInt(n), f);
    forall e ensures Matches(e, [f], sat) <==> Compare(f.operator, number(e), n) {
      assert sat(e, field, f.operator, TextArg(FormatInt(n))) <==> Compare(f.operator, number(e), n);
      assert [f][0] == f;
    }
  }

  /** The rows a statement selects. */
  function SelectedRows(s: Select, args: seq<Arg>, sat: (Stored, string, string, Arg) -> bool,
      rows: set<Stored>): set<Stored> {
    set e | e in rows && Selected(s, args, sat, e)
  }

  /** A possible answer to a statement: its text parses, and the page is the selected rows in ascending or descending
      time order, in any order among equal times, cut off at the limit argument. */
  ghost predicate Answers(text: string, args: seq<Arg>, sat: (Stored, string, string, Arg) -> bool, rows: set<Stored>,
      page: seq<Stored>) {
    && Parse(text).Some?
    && var s := Parse(text).value;
      && 1 <= s.limitParam <= |args| && args[s.limitParam - 1].LimitArg? && args[s.limitParam - 1].n >= 0
      && var selected, limit := SelectedRows(s, args, sat, rows), args[s.limitParam - 1].n;
        if s.order == "DESC" then IsPageDown(selected, None, limit, page)
        else s.order == "ASC" && IsPage(selected, None, limit, page)
  }

  /** The rows that the emitted text selects are the matching rows after the cursor. */
  lemma SelectedIsEligible(q: Params, sat: (Stored, string, string, Arg) -> bool, rows: set<Stored>)
    requires Validated(q) && ComparesTimes(sat)
    ensures Parse(SelectText(Meant(q))).Some?
    ensures SelectedRows(Parse(SelectText(Meant(q))).value, Args(q), sat, rows)
        == Eligible(Matching(rows, q.filters, sat), q.cursor)
  {
    QueryMeansParams(q, sat);
    var s := Parse(SelectText(Meant(q))).value;
    forall e | e in rows ensures Selected(s, Args(q), sat, e)
        <==> Matches(e, q.filters, sat) && (q.cursor.Some? ==> Time(e) > q.cursor.value) { }
  }

  /** The answers to a descending request that a client makes first, or with the cursor of a page. */
  lemma AnswersArePagesDown(q: Params, sat: (Stored, string, string, Arg) -> bool, rows: set<Stored>,
      page: seq<Stored>)
    requires Validated(q) && q.order == "DESC" && ComparesTimes(sat)
    ensures Answers(SelectText(Meant(q)), Args(q), sat, rows, page)
        <==> IsPageDown(Matching(rows, q.filters, sat), q.cursor, q.limit, page)
  {
    QueryMeansParams(q, sat);
    SelectedIsEligible(q, sat, rows);
    var matching := Matching(rows, q.filters, sat);
    assert Eligible(Eligible(matching, q.cursor), None) == Eligible(matching, q.cursor);
  }

  lemma PageOfEligible(rows: set<Stored>, cursor: Option<int>, limit: nat, page: seq<Stored>)
    ensures IsPage(Eligible(rows, cursor), None, limit, page) <==> IsPage(rows, cursor, limit, page)
  {
    assert Eligible(Eligible(rows, cursor), None) == Eligible(rows, cursor);
  }

  /** The answers to the statement that a validated ascending request is turned into are exactly the pages of the
      rows that match its filters. */
  lemma AnswersArePages(q: Params, sat: (Stored, string, string, Arg) -> bool, rows: set<Stored>, page: seq<Stored>)
    requires Validated(q) && q.order == "ASC" && ComparesTimes(sat)
    ensures Answers(SelectText(Meant(q)), Args(q), sat, rows, page)
        <==> IsPage(Matching(rows, q.filters, sat), q.cursor, q.limit, page)
  {
    QueryMeansParams(q, sat);
    SelectedIsEligible(q, sat, rows);
    PageOfEligible(Matching(rows, q.filters, sat), q.cursor, q.limit, page);
  }

  /** The packet shows the selected fields of the row, each under its name, and nothing in the others. */
  predicate ShowsNames(p: PacketItem, names: seq<string>, e: Stored) {
    && ShowsEnds(p, names, e)
    && p.timestamp == (if "time" in names then e.row.time else -62135596800_000_000_000)
    && p.protocol == (if "protocol" in names then Some(e.row.protocol) else None)
    && p.length == (if "length" in names then Some(e.row.length) else None)
    && p.tcpFlags == (if "tcp_flags" in names then Some(e.row.tcpFlags) else None)
    && p.jobId == (if "job_id" in names then Some(e.jobId) else None)
  }

  /** Addresses and ports. */
  predicate ShowsEnds(p: PacketItem, names: seq<string>, e: Stored) {
    && p.srcIp == (if "src_ip" in names then Some(Printed(e.row.srcIp)) else None)
    && p.dstIp == (if "dst_ip" in names then Some(Printed(e.row.dstIp)) else None)
    && p.srcPort == (if "src_port" in names then Some(e.row.srcPort) else None)
    && p.dstPort == (if "dst_port" in names then Some(e.row.dstPort) else None)
  }

  function Printed(a: Addr): string {
    match a
    case NoAddr => "invalid IP"
    case Addr(text) => text
  }

  /** A column is selected by its name only. */
  lemma NameChooses(names: seq<string>, name: string, col: Column)
    requires Known(names) && ColumnOf(name) == Some(col)
    ensures col in ColumnList(names) <==> name in names
  {
    ColumnNames();
    if name in names {
      var i :| 0 <= i < |names| && names[i] == name;
      assert ColumnList(names)[i] == col;
    }
    if col in ColumnList(names) {
      var i :| 0 <= i < |names| && ColumnList(names)[i] == col;
      assert ColumnOf(names[i]) == ColumnOf(name);
    }
  }

  lemma FieldShown(p: PacketItem, names: seq<string>, e: Stored, name: string, col: Column)
    requires Known(names) && Shows(p, Chosen(ColumnList(names)), e) && ColumnOf(name) == Some(col)
    ensures CellOf(p, col) == if name in names then StoredCell(e, col) else CellOf(EMPTY_PACKET, col)
  {
    NameChooses(names, name, col);
  }

  lemma EndsShown(p: PacketItem, names: seq<string>, e: Stored)
    requires Known(names) && Shows(p, Chosen(ColumnList(names)), e)
    ensures ShowsEnds(p, names, e)
  {
    FieldShown(p, names, e, "src_ip", SrcIpCol);
    FieldShown(p, names, e, "dst_ip", DstIpCol);
    FieldShown(p, names, e, "src_port", SrcPortCol);
    FieldShown(p, names, e, "dst_port", DstPortCol);
  }

  lemma NamesShown(p: PacketItem, names: seq<string>, e: Stored)
    requires Known(names) && Shows(p, Chosen(ColumnList(names)), e)
    ensures ShowsNames(p, names, e)
  {
    EndsShown(p, names, e);
    FieldShown(p, names, e, "time", TimestampCol);
    FieldShown(p, names, e, "protocol", ProtocolCol);
    FieldShown(p, names, e, "length", LengthCol);
    FieldShown(p, names, e, "tcp_flags", TcpFlagsCol);
    FieldShown(p, names, e, "job_id", JobIdCol);
  }

  /** The response to a request: every row of the answer with the selected fields under their names, and the next
      cursor exactly for a full page: the whole second of its last row, or the zero time if times are not selected. */
  method Respond(q: Params, page: seq<Stored>) returns (data: seq<PacketItem>, next: Option<int>)
    requires Validated(q)
    ensures |data| == |page| && forall i :: 0 <= i < |page| ==> ShowsNames(data[i], q.columns, page[i])
    ensures next.Some? <==> |page| == q.limit
    ensures next.Some? && "time" in q.columns ==> WholeSecond(next.value, page[q.limit - 1].row.time)
    ensures next.Some? && "time" !in q.columns ==> next.value == -62135596800_000_000_000
    ensures "time" in q.columns ==> next == NextCursor(q.limit, page)
  {
    ColumnNames();
    assert Known(q.columns);
    var columns := ColumnList(q.columns);
    data, next := QueryPackets(columns, q.limit, page);
    NameChooses(q.columns, "time", TimestampCol);
    forall i | 0 <= i < |page| ensures ShowsNames(data[i], q.columns, page[i]) {
      NamesShown(data[i], q.columns, page[i]);
    }
  }

  // ---- Following the cursor ---------------------------------------------------------------------

  /** The k-th request of a client that repeats its first request with the cursor of the last response. */
  function RequestAt(q: Params, pages: seq<seq<Stored>>, k: nat): Params
    requires q.limit > 0 && k <= |pages|
  {
    if k == 0 then q else q.(cursor := NextCursor(q.limit, pages[k - 1]))
  }

  /** Page k is an answer to the k-th request. */
  ghost predicate Answered(q: Params, sat: (Stored, string, string, Arg) -> bool, rows: set<Stored>,
      pages: seq<seq<Stored>>, k: nat)
    requires q.limit > 0 && k < |pages|
  {
    Answers(SelectText(Meant(RequestAt(q, pages, k))), Args(RequestAt(q, pages, k)), sat, rows, pages[k])
  }

  /** The pages are answers to such requests; the client stops at the latest when there is no next cursor. */
  ghost predicate Follow(q: Params, sat: (Stored, string, string, Arg) -> bool, rows: set<Stored>,
      pages: seq<seq<Stored>>)
    requires q.limit > 0
  {
    && pages != []
    && (forall k :: 0 < k < |pages| ==> RequestAt(q, pages, k).cursor.Some?)
    && (forall k :: 0 <= k < |pages| ==> Answered(q, sat, rows, pages, k))
  }

  /** No instant after the cursor is cut to a whole second before it. */
  predicate CursorHolds(cursor: Option<int>) { cursor.None? || Trunc(cursor.value + 1) >= cursor.value }

  /** The rows a client that starts with this request asks for. */
  function Asked(q: Params, sat: (Stored, string, string, Arg) -> bool, rows: set<Stored>): set<Stored> {
    Eligible(Matching(rows, q.filters, sat), q.cursor)
  }

  lemma TruncGrows(t: int, u: int)
    requires t <= u
    ensures Trunc(t) <= Trunc(u)
  {
  }

  predicate AllIn(page: seq<Stored>, rows: set<Stored>) { forall i :: 0 <= i < |page| ==> page[i] in rows }

  /** A later cursor asks for the same rows among those after an earlier one as among all. */
  lemma LaterCursor(rows: set<Stored>, first: Option<int>, limit: nat, page: seq<Stored>, other: seq<Stored>)
    requires limit > 0 && CursorHolds(first) && AllIn(page, Eligible(rows, first))
    requires NextCursor(limit, page).Some?
    ensures IsPage(Eligible(rows, first), NextCursor(limit, page), limit, other)
        <==> IsPage(rows, NextCursor(limit, page), limit, other)
  {
    var last := page[limit - 1];
    if first.Some? { TruncGrows(first.value + 1, Time(last)); }
    assert Eligible(Eligible(rows, first), NextCursor(limit, page)) == Eligible(rows, NextCursor(limit, page));
  }

  /** The k-th page answers its request exactly if it is a page of the rows asked for, once the page before it is. */
  lemma RequestAnswered(q: Params, sat: (Stored, string, string, Arg) -> bool, rows: set<Stored>,
      pages: seq<seq<Stored>>, k: nat)
    requires Validated(q) && q.order == "ASC" && CursorHolds(q.cursor) && ComparesTimes(sat) && k < |pages|
    requires k > 0 ==> NextCursor(q.limit, pages[k - 1]).Some? && AllIn(pages[k - 1], Asked(q, sat, rows))
    ensures Answered(q, sat, rows, pages, k)
        <==> IsPage(Asked(q, sat, rows), CursorAt(q.limit, pages, k), q.limit, pages[k])
  {
    AnswersArePages(RequestAt(q, pages, k), sat, rows, pages[k]);
    if k == 0 {
      PageOfEligible(Matching(rows, q.filters, sat), q.cursor, q.limit, pages[0]);
    } else {
      LaterCursor(Matching(rows, q.filters, sat), q.cursor, q.limit, pages[k - 1], pages[k]);
    }
  }

  /** Page k is a page from its cursor. */
  predicate Served(rows: set<Stored>, limit: nat, pages: seq<seq<Stored>>, k: nat)
    requires limit > 0 && k < |pages|
  {
    IsPage(rows, CursorAt(limit, pages, k), limit, pages[k]) && (k > 0 ==> CursorAt(limit, pages, k).Some?)
  }

  lemma ServedFollows(rows: set<Stored>, limit: nat, pages: seq<seq<Stored>>, k: nat)
    requires limit > 0 && k + 1 < |pages| && Served(rows, limit, pages, k + 1)
    ensures Follows(rows, limit, pages[k], pages[k + 1])
  {
  }

  lemma PagesMakeWalk(rows: set<Stored>, limit: nat, pages: seq<seq<Stored>>)
    requires limit > 0 && pages != []
    requires forall k :: 0 <= k < |pages| ==> Served(rows, limit, pages, k)
    ensures Walk(rows, limit, pages)
  {
    assert Served(rows, limit, pages, 0);
    forall k | 0 <= k < |pages| - 1 ensures Follows(rows, limit, pages[k], pages[k + 1]) {
      ServedFollows(rows, limit, pages, k);
    }
  }

  lemma NextServed(q: Params, sat: (Stored, string, string, Arg) -> bool, rows: set<Stored>, pages: seq<seq<Stored>>,
      k: nat)
    requires Validated(q) && q.order == "ASC" && CursorHolds(q.cursor) && ComparesTimes(sat)
    requires 0 < k < |pages| && Served(Asked(q, sat, rows), q.limit, pages, k - 1)
    requires RequestAt(q, pages, k).cursor.Some? && Answered(q, sat, rows, pages, k)
    ensures Served(Asked(q, sat, rows), q.limit, pages, k)
  {
    RequestAnswered(q, sat, rows, pages, k);
  }

  lemma {:induction false} FollowedServed(q: Params, sat: (Stored, string, string, Arg) -> bool, rows: set<Stored>,
                                          pages: seq<seq<Stored>>, k: nat)
    requires Validated(q) && q.order == "ASC" && CursorHolds(q.cursor) && ComparesTimes(sat)
    ensures Follow(q, sat, rows, pages) && k < |pages| ==> Served(Asked(q, sat, rows), q.limit, pages, k)
  {
    if Follow(q, sat, rows, pages) && k < |pages| {
      assert Answered(q, sat, rows, pages, k);
      if k == 0 {
        RequestAnswered(q, sat, rows, pages, 0);
      } else {
        FollowedServed(q, sat, rows, pages, k - 1);
        NextServed(q, sat, rows, pages, k);
      }
    }
  }

  lemma WalkIsFollowed(q: Params, sat: (Stored, string, string, Arg) -> bool, rows: set<Stored>,
      pages: seq<seq<Stored>>)
    requires Validated(q) && q.order == "ASC" && CursorHolds(q.cursor) && ComparesTimes(sat)
    ensures Walk(Asked(q, sat, rows), q.limit, pages) ==> Follow(q, sat, rows, pages)
  {
    var asked := Asked(q, sat, rows);
    if Walk(asked, q.limit, pages) {
      forall k | 0 <= k < |pages|
        ensures k > 0 ==> RequestAt(q, pages, k).cursor.Some?
        ensures Answered(q, sat, rows, pages, k)
      {
        PageAt(asked, q.limit, pages, k);
        if k > 0 { PageAt(asked, q.limit, pages, k - 1); }
        RequestAnswered(q, sat, rows, pages, k);
      }
    }
  }

  /** What a client gets by following the cursor from an ascending request with the time column, itself with a cursor
      or without, is a walk over the rows that match its filters and come after its cursor, and every such walk can
      be got; so the results on walks hold of it. Only the first cursor must not lie inside a second that has later
      instants. */
  lemma FollowingIsWalking(q: Params, sat: (Stored, string, string, Arg) -> bool, rows: set<Stored>,
      pages: seq<seq<Stored>>)
    requires Validated(q) && q.order == "ASC" && CursorHolds(q.cursor) && ComparesTimes(sat)
    ensures Follow(q, sat, rows, pages) <==> Walk(Asked(q, sat, rows), q.limit, pages)
  {
    if Follow(q, sat, rows, pages) {
      forall k | 0 <= k < |pages| ensures Served(Asked(q, sat, rows), q.limit, pages, k) {
        FollowedServed(q, sat, rows, pages, k);
      }
      PagesMakeWalk(Asked(q, sat, rows), q.limit, pages);
    }
    WalkIsFollowed(q, sat, rows, pages);
  }

  /** The request is the first of a client that follows the cursor in descending order. */
  ghost predicate StartsDown(q: Params, sat: (Stored, string, string, Arg) -> bool) {
    Validated(q) && q.order == "DESC" && q.cursor == None && ComparesTimes(sat)
  }

  lemma AnsweredDown(q: Params, sat: (Stored, string, string, Arg) -> bool, rows: set<Stored>,
      pages: seq<seq<Stored>>, k: nat)
    requires StartsDown(q, sat) && k < |pages|
    ensures Answered(q, sat, rows, pages, k)
      <==> IsPageDown(Matching(rows, q.filters, sat), RequestAt(q, pages, k).cursor, q.limit, pages[k])
  {
    AnswersArePagesDown(RequestAt(q, pages, k), sat, rows, pages[k]);
  }

  lemma NextDown(q: Params, sat: (Stored, string, string, Arg) -> bool, rows: set<Stored>, pages: seq<seq<Stored>>,
      k: nat)
    requires StartsDown(q, sat) && k + 1 < |pages|
    requires RequestAt(q, pages, k + 1).cursor.Some? && Answered(q, sat, rows, pages, k + 1)
    ensures FollowsDown(Matching(rows, q.filters, sat), q.limit, pages[k], pages[k + 1])
  {
    AnsweredDown(q, sat, rows, pages, k + 1);
  }

  lemma FollowedDown(q: Params, sat: (Stored, string, string, Arg) -> bool, rows: set<Stored>,
      pages: seq<seq<Stored>>)
    requires StartsDown(q, sat) && Follow(q, sat, rows, pages)
    ensures WalkDown(Matching(rows, q.filters, sat), q.limit, pages)
  {
    var matching := Matching(rows, q.filters, sat);
    assert IsPageDown(matching, None, q.limit, pages[0]) by {
      assert Answered(q, sat, rows, pages, 0);
      AnsweredDown(q, sat, rows, pages, 0);
    }
    forall k | 0 <= k < |pages| - 1 ensures FollowsDown(matching, q.limit, pages[k], pages[k + 1]) {
      assert Answered(q, sat, rows, pages, k + 1) && RequestAt(q, pages, k + 1).cursor.Some?;
      NextDown(q, sat, rows, pages, k);
    }
  }

  lemma WalkDownIsFollowed(q: Params, sat: (Stored, string, string, Arg) -> bool, rows: set<Stored>,
      pages: seq<seq<Stored>>)
    requires StartsDown(q, sat) && WalkDown(Matching(rows, q.filters, sat), q.limit, pages)
    ensures Follow(q, sat, rows, pages)
  {
    var matching := Matching(rows, q.filters, sat);
    forall k | 0 <= k < |pages|
      ensures (k > 0 ==> RequestAt(q, pages, k).cursor.Some?) && Answered(q, sat, rows, pages, k)
    {
      AnsweredDown(q, sat, rows, pages, k);
      if k > 0 { assert FollowsDown(matching, q.limit, pages[k - 1], pages[k - 1 + 1]); }
    }
  }

  /** In descending order a client that asks for the time column and follows the cursor goes through exactly the
      descending walks over the rows that match its filters, so it is never shown a row older than the last one of a
      full first page. */
  lemma FollowingDown(q: Params, sat: (Stored, string, string, Arg) -> bool, rows: set<Stored>,
      pages: seq<seq<Stored>>)
    requires StartsDown(q, sat)
    ensures Follow(q, sat, rows, pages) <==> WalkDown(Matching(rows, q.filters, sat), q.limit, pages)
    ensures Follow(q, sat, rows, pages) && |pages[0]| == q.limit ==>
      forall e, k :: 0 <= k < |pages| && e in pages[k] ==> Time(e) >= Time(pages[0][q.limit - 1])
  {
    var matching := Matching(rows, q.filters, sat);
    if Follow(q, sat, rows, pages) { FollowedDown(q, sat, rows, pages); }
    if WalkDown(matching, q.limit, pages) {
      WalkDownIsFollowed(q, sat, rows, pages);
      if |pages[0]| == q.limit {
        forall e, k | 0 <= k < |pages| && e in pages[k] ensures Time(e) >= Time(pages[0][q.limit - 1]) {
          if Time(e) < End(q.limit, pages[0]) { NothingOlderShown(matching, q.limit, pages, e); }
        }
      }
    }
  }

  /** From any other first cursor it can go back, whatever the limit and the filters: with a page of matching rows right
      after the first cursor the next cursor is before the first, and the second page shows a row that the first request
      had excluded. */
  lemma FractionalCursorGoesBack(q: Params, sat: (Stored, string, string, Arg) -> bool, a: Stored, bs: seq<Stored>)
    requires Validated(q) && q.order == "ASC" && ComparesTimes(sat) && !CursorHolds(q.cursor)
    requires |bs| == q.limit && Distinct(bs) && forall e :: e in bs ==> Time(e) == q.cursor.value + 1
    requires Time(a) == q.cursor.value && forall e :: e == a || e in bs ==> Matches(e, q.filters, sat)
    ensures Follow(q, sat, {a} + Members(bs), [bs, [a] + bs[1..]]) && a !in Asked(q, sat, {a} + Members(bs))
  {
    var rows, pages, next := {a} + Members(bs), [bs, [a] + bs[1..]], Trunc(q.cursor.value + 1);
    assert Matching(rows, q.filters, sat) == rows;
    FirstAfter(q.cursor, a, bs);
    FirstFrom(next, a, bs);
    AnswersArePages(q, sat, rows, bs);
    assert Answered(q, sat, rows, pages, 0);
    SecondAnswered(q, sat, rows, pages, next);
  }

  lemma SecondAnswered(q: Params, sat: (Stored, string, string, Arg) -> bool, rows: set<Stored>,
      pages: seq<seq<Stored>>, next: int)
    requires Validated(q) && q.order == "ASC" && ComparesTimes(sat) && Matching(rows, q.filters, sat) == rows
    requires |pages| == 2 && NextCursor(q.limit, pages[0]) == Some(next)
    requires IsPage(rows, Some(next), q.limit, pages[1])
    ensures Answered(q, sat, rows, pages, 1)
  {
    var second := q.(cursor := Some(next));
    assert RequestAt(q, pages, 1) == second;
    AnswersArePages(second, sat, rows, pages[1]);
  }

  lemma FirstAfter(cursor: Option<int>, a: Stored, bs: seq<Stored>)
    requires cursor.Some? && bs != [] && Distinct(bs) && forall e :: e in bs ==> Time(e) == cursor.value + 1
    requires Time(a) == cursor.value
    ensures IsPage({a} + Members(bs), cursor, |bs|, bs) && NextCursor(|bs|, bs) == Some(Trunc(cursor.value + 1))
  {
    assert Eligible({a} + Members(bs), cursor) == Members(bs);
    MembersCount(bs);
    forall i | 0 <= i < |bs| ensures bs[i] in Members(bs) && Time(bs[i]) == cursor.value + 1 { assert bs[i] in bs; }
  }

  lemma FirstFrom(from: int, a: Stored, bs: seq<Stored>)
    requires bs != [] && Distinct(bs) && from < Time(a) && forall e :: e in bs ==> Time(e) == Time(a) + 1
    ensures IsPage({a} + Members(bs), Some(from), |bs|, [a] + bs[1..])
  {
    var page, eligible := [a] + bs[1..], {a} + Members(bs);
    assert Eligible(eligible, Some(from)) == eligible;
    MembersCount(bs);
    assert a !in Members(bs) && |eligible| == 1 + |bs|;
    OneBefore(a, bs[1..]);
  }

  lemma OneBefore(a: Stored, bs: seq<Stored>)
    requires Distinct(bs) && forall e :: e in bs ==> Time(e) == Time(a) + 1
    ensures Distinct([a] + bs) && Ascending([a] + bs)
    ensures forall i :: 0 <= i < |[a] + bs| ==> Time(([a] + bs)[i]) <= Time(a) + 1
  {
    forall i | 0 <= i < |bs| ensures Time(bs[i]) == Time(a) + 1 { assert bs[i] in bs; }
  }
}
