/**
 Cursor pagination in ascending time order over a fixed set of matching rows. Times are nanoseconds; a
 cursor is the last row's timestamp printed in whole seconds, and the next page asks for later rows.
*/
module Pagination {
  import opened Capture
  import opened Wrappers

  const SECOND: int := 1_000_000_000

  /** The zero time.Time, 1 January of year 1, in nanoseconds before the epoch. */
  const ZERO_TIME: int := -62135596800 * SECOND

  /** A row of packet_logs; `jobId` is empty when the source is not a valid UUID. */
  datatype Stored = Stored(id: nat, row: PacketRow, jobId: string)

  function Time(e: Stored): int { e.row.time }

  /** What printing a timestamp in RFC 3339 keeps of it. */
  function Trunc(t: int): int { t - t % SECOND }

  // ---- One page ---------------------------------------------------------------------------------

  datatype PacketItem = PacketItem(timestamp: int, srcIp: Option<string>, dstIp: Option<string>,
                                   srcPort: Option<int>, dstPort: Option<int>, protocol: Option<string>,
                                   length: Option<int>, tcpFlags: Option<int>, jobId: Option<string>)

  const EMPTY_PACKET: PacketItem := PacketItem(ZERO_TIME, None, None, None, None, None, None, None, None)

  function AddrText(a: Addr): string { if a.NoAddr? then "invalid IP" else a.text }

  /** The validated column names; each has its mapper. */
  datatype Column =
    | TimestampCol | SrcIpCol | DstIpCol | SrcPortCol | DstPortCol | ProtocolCol | LengthCol | TcpFlagsCol | JobIdCol

  /** The column mapper of one column. */
  function MapColumn(col: Column, e: Stored, p: PacketItem): PacketItem {
    match col
    case TimestampCol => p.(timestamp := Time(e))
    case SrcIpCol => p.(srcIp := Some(AddrText(e.row.srcIp)))
    case DstIpCol => p.(dstIp := Some(AddrText(e.row.dstIp)))
    case SrcPortCol => p.(srcPort := Some(e.row.srcPort))
    case DstPortCol => p.(dstPort := Some(e.row.dstPort))
    case ProtocolCol => p.(protocol := Some(e.row.protocol))
    case LengthCol => p.(length := Some(e.row.length))
    case TcpFlagsCol => p.(tcpFlags := Some(e.row.tcpFlags))
    case JobIdCol => p.(jobId := Some(e.jobId))
  }

  /** The value of one field of a packet. */
  datatype Cell = Missing | TimeCell(t: int) | TextCell(s: string) | NumberCell(n: int)

  function TextOf(s: Option<string>): Cell { if s.None? then Missing else TextCell(s.value) }

  function NumberOf(n: Option<int>): Cell { if n.None? then Missing else NumberCell(n.value) }

  function CellOf(p: PacketItem, col: Column): Cell {
    match col
    case TimestampCol => TimeCell(p.timestamp)
    case SrcIpCol => TextOf(p.srcIp)
    case DstIpCol => TextOf(p.dstIp)
    case SrcPortCol => NumberOf(p.srcPort)
    case DstPortCol => NumberOf(p.dstPort)
    case ProtocolCol => TextOf(p.protocol)
    case LengthCol => NumberOf(p.length)
    case TcpFlagsCol => NumberOf(p.tcpFlags)
    case JobIdCol => TextOf(p.jobId)
  }

  function StoredCell(e: Stored, col: Column): Cell {
    match col
    case TimestampCol => TimeCell(Time(e))
    case SrcIpCol => TextCell(AddrText(e.row.srcIp))
    case DstIpCol => TextCell(AddrText(e.row.dstIp))
    case SrcPortCol => NumberCell(e.row.srcPort)
    case DstPortCol => NumberCell(e.row.dstPort)
    case ProtocolCol => TextCell(e.row.protocol)
    case LengthCol => NumberCell(e.row.length)
    case TcpFlagsCol => NumberCell(e.row.tcpFlags)
    case JobIdCol => TextCell(e.jobId)
  }

  /** The packet has the row's value in every selected column and nothing in the others. */
  predicate Shows(p: PacketItem, columns: set<Column>, e: Stored) {
    forall col :: CellOf(p, col) == if col in columns then StoredCell(e, col) else CellOf(EMPTY_PACKET, col)
  }

  /** A mapper sets its own field and no other. */
  lemma MapsOneColumn(col: Column, e: Stored, p: PacketItem, other: Column)
    ensures CellOf(MapColumn(col, e, p), other) == if other == col then StoredCell(e, col) else CellOf(p, other)
  {
  }

  function Chosen(columns: seq<Column>): set<Column> { set k | k in columns }

  method MapRow(columns: seq<Column>, e: Stored) returns (p: PacketItem)
    ensures Shows(p, Chosen(columns), e)
  {
    p := EMPTY_PACKET;
    for i := 0 to |columns|
      invariant Shows(p, Chosen(columns[..i]), e)
    {
      assert Chosen(columns[..i + 1]) == Chosen(columns[..i]) + {columns[i]};
      forall col ensures CellOf(MapColumn(columns[i], e, p), col) == if col == columns[i] then StoredCell(e, col)
          else CellOf(p, col) {
        MapsOneColumn(columns[i], e, p, col);
      }
      p := MapColumn(columns[i], e, p);
    }
    assert columns[..|columns|] == columns;
  }

  /** QueryPackets on the rows the database returned: every row in order, and a cursor exactly for a full page,
      the last row's time in whole seconds if the time column is selected and the zero time otherwise. */
  method QueryPackets(columns: seq<Column>, limit: nat, rows: seq<Stored>)
      returns (data: seq<PacketItem>, nextCursor: Option<int>)
    requires limit > 0
    ensures |data| == |rows| && forall i :: 0 <= i < |rows| ==> Shows(data[i], Chosen(columns), rows[i])
    ensures nextCursor == CursorOf(columns, limit, rows)
    ensures nextCursor.Some? <==> |rows| == limit
    ensures nextCursor.Some? && TimestampCol in columns ==> WholeSecond(nextCursor.value, rows[limit - 1].row.time)
    ensures nextCursor.Some? && TimestampCol !in columns ==> nextCursor.value == -62135596800_000_000_000
  {
    data := [];
    for i := 0 to |rows|
      invariant |data| == i && forall k :: 0 <= k < i ==> Shows(data[k], Chosen(columns), rows[k])
    {
      var p := MapRow(columns, rows[i]);
      data := data + [p];
    }
    nextCursor := None;
    if |data| == limit {
      assert CellOf(data[limit - 1], TimestampCol) == TimeCell(data[limit - 1].timestamp);
      nextCursor := Some(Trunc(data[|data| - 1].timestamp));
    }
  }

  /** The instant is the beginning of the second that the time is in. */
  predicate WholeSecond(instant: int, time: int) {
    instant % 1_000_000_000 == 0 && instant <= time < instant + 1_000_000_000
  }

  function CursorOf(columns: seq<Column>, limit: nat, page: seq<Stored>): Option<int>
    requires limit > 0
  {
    if |page| != limit then None
    else Some(Trunc(if TimestampCol in columns then Time(page[limit - 1]) else ZERO_TIME))
  }

  // ---- Pages of a table -------------------------------------------------------------------------

  /** The matching rows that a request with this cursor selects. */
  function Eligible(rows: set<Stored>, cursor: Option<int>): set<Stored> {
    set e | e in rows && (cursor.None? || Time(e) > cursor.value)
  }

  predicate Distinct(page: seq<Stored>) { forall i, j :: 0 <= i < j < |page| ==> page[i] != page[j] }

  predicate Ascending(page: seq<Stored>) { forall i, j :: 0 <= i < j < |page| ==> Time(page[i]) <= Time(page[j]) }

  /** A possible answer: ORDER BY time ASC in any order among equal times, cut off at the limit. */
  predicate IsPage(rows: set<Stored>, cursor: Option<int>, limit: nat, page: seq<Stored>) {
    var eligible := Eligible(rows, cursor);
    && Distinct(page) && Ascending(page)
    && |page| == (if |eligible| < limit then |eligible| else limit)
    && (forall i :: 0 <= i < |page| ==> page[i] in eligible)
    && (forall e, i :: e in eligible && e !in page && 0 <= i < |page| ==> Time(page[i]) <= Time(e))
  }

  function NextCursor(limit: nat, page: seq<Stored>): Option<int>
    requires limit > 0
  {
    CursorOf([TimestampCol], limit, page)
  }

  predicate Follows(rows: set<Stored>, limit: nat, page: seq<Stored>, next: seq<Stored>)
    requires limit > 0
  {
    NextCursor(limit, page).Some? && IsPage(rows, NextCursor(limit, page), limit, next)
  }

  /** Following next_cursor from the first page. */
  predicate Walk(rows: set<Stored>, limit: nat, pages: seq<seq<Stored>>) {
    && limit > 0 && pages != []
    && IsPage(rows, None, limit, pages[0])
    && forall k :: 0 <= k < |pages| - 1 ==> Follows(rows, limit, pages[k], pages[k + 1])
  }

  function CursorAt(limit: nat, pages: seq<seq<Stored>>, k: nat): Option<int>
    requires limit > 0 && k <= |pages|
  {
    if k == 0 then None else NextCursor(limit, pages[k - 1])
  }

  predicate Complete(limit: nat, pages: seq<seq<Stored>>)
    requires limit > 0 && pages != []
  {
    NextCursor(limit, pages[|pages| - 1]).None?
  }

  predicate Visited(pages: seq<seq<Stored>>, e: Stored) { exists k :: 0 <= k < |pages| && e in pages[k] }

  predicate VisitedBefore(pages: seq<seq<Stored>>, n: nat, e: Stored)
    requires n <= |pages|
  {
    exists k :: 0 <= k < n && e in pages[k]
  }

  function Members(page: seq<Stored>): set<Stored> { set e | e in page }

  lemma {:induction false} MembersCount(page: seq<Stored>)
    requires Distinct(page)
    ensures |Members(page)| == |page|
  {
    if page == [] {
    } else {
      var rest, last := page[..|page| - 1], page[|page| - 1];
      MembersCount(rest);
      assert Members(page) == Members(rest) + {last};
      assert last !in rest;
    }
  }

  lemma Equinumerous(s: set<Stored>, t: set<Stored>)
    requires s <= t && |s| == |t|
    ensures s == t
  {
    if e :| e in t - s {
      assert s <= t - {e};
      SubsetSize(s, t - {e});
    }
    assert t == s + (t - s);
  }

  lemma {:induction false} SubsetSize(s: set<Stored>, t: set<Stored>)
    requires s <= t
    ensures |s| <= |t|
  {
    if e :| e in s { SubsetSize(s - {e}, t - {e}); }
  }

  /** A page that is not full holds every eligible row. */
  lemma ShortPageIsAll(rows: set<Stored>, cursor: Option<int>, limit: nat, page: seq<Stored>, e: Stored)
    requires IsPage(rows, cursor, limit, page) && |page| < limit && e in Eligible(rows, cursor)
    ensures e in page
  {
    MembersCount(page);
    Equinumerous(Members(page), Eligible(rows, cursor));
  }

  lemma PageAt(rows: set<Stored>, limit: nat, pages: seq<seq<Stored>>, k: nat)
    requires Walk(rows, limit, pages) && k < |pages|
    ensures IsPage(rows, CursorAt(limit, pages, k), limit, pages[k])
    ensures k > 0 ==> CursorAt(limit, pages, k).Some?
  {
    if k > 0 { assert Follows(rows, limit, pages[k - 1], pages[k - 1 + 1]); }
  }

  // ---- What a walk misses -----------------------------------------------------------------------

  /** The rows a full page leaves behind for good: those at exactly its cursor, a whole second. */
  lemma LeftBehind(rows: set<Stored>, cursor: Option<int>, limit: nat, page: seq<Stored>, e: Stored)
    requires limit > 0 && IsPage(rows, cursor, limit, page) && e in Eligible(rows, cursor) && e !in page
    ensures |page| == limit
    ensures Time(e) >= Time(page[limit - 1]) >= NextCursor(limit, page).value
    ensures e in Eligible(rows, NextCursor(limit, page)) || Some(Time(e)) == NextCursor(limit, page)
  {
    if |page| < limit { ShortPageIsAll(rows, cursor, limit, page, e); }
  }

  lemma {:induction false} CursorsAscend(rows: set<Stored>, limit: nat, pages: seq<seq<Stored>>, j: nat, k: nat)
    requires Walk(rows, limit, pages) && 0 < j <= k <= |pages|
    requires CursorAt(limit, pages, j).Some? && CursorAt(limit, pages, k).Some?
    ensures CursorAt(limit, pages, j).value <= CursorAt(limit, pages, k).value
    decreases k - j
  {
    if j == k {
    } else {
      assert CursorAt(limit, pages, k - 1).Some?;
      CursorsAscend(rows, limit, pages, j, k - 1);
      PageAt(rows, limit, pages, k - 1);
      var last := pages[k - 1][limit - 1];
      assert last in Eligible(rows, CursorAt(limit, pages, k - 1));
      TruncAbove(CursorAt(limit, pages, k - 1).value, Time(last), Time(pages[k - 2][limit - 1]));
    }
  }

  lemma TruncAbove(cursor: int, t: int, u: int)
    requires cursor == Trunc(u) && t > cursor
    ensures Trunc(t) >= cursor && cursor % SECOND == 0
  {
  }

  /** Before page k a row has been visited, is still eligible, or sits exactly at an earlier cursor. */
  lemma {:induction false} RowFate(rows: set<Stored>, limit: nat, pages: seq<seq<Stored>>, e: Stored, k: nat)
    requires Walk(rows, limit, pages) && e in rows && k <= |pages|
    requires k == |pages| ==> !Complete(limit, pages)
    ensures VisitedBefore(pages, k, e) || e in Eligible(rows, CursorAt(limit, pages, k))
            || exists j :: 0 < j <= k && CursorAt(limit, pages, j) == Some(Time(e)) && !VisitedBefore(pages, j, e)
  {
    if k == 0 {
    } else {
      assert k - 1 < |pages|;
      RowFate(rows, limit, pages, e, k - 1);
      PageAt(rows, limit, pages, k - 1);
      if !VisitedBefore(pages, k, e) && e in Eligible(rows, CursorAt(limit, pages, k - 1)) {
        assert e !in pages[k - 1];
        LeftBehind(rows, CursorAt(limit, pages, k - 1), limit, pages[k - 1], e);
      }
    }
  }

  /** A complete walk misses a row exactly when some cursor equals the row's time, so that time is a whole second,
      and the row was on no page up to there. */
  lemma MissedExactly(rows: set<Stored>, limit: nat, pages: seq<seq<Stored>>, e: Stored)
    requires Walk(rows, limit, pages) && Complete(limit, pages) && e in rows
    ensures !Visited(pages, e) <==>
            exists k :: 0 < k < |pages| && CursorAt(limit, pages, k) == Some(Time(e)) && !VisitedBefore(pages, k, e)
  {
    var n := |pages| - 1;
    if !Visited(pages, e) {
      RowFate(rows, limit, pages, e, n);
      PageAt(rows, limit, pages, n);
      if e in Eligible(rows, CursorAt(limit, pages, n)) {
        ShortPageIsAll(rows, CursorAt(limit, pages, n), limit, pages[n], e);
      }
    }
    if k :| 0 < k < |pages| && CursorAt(limit, pages, k) == Some(Time(e)) && !VisitedBefore(pages, k, e) {
      forall m | 0 <= m < |pages| ensures e !in pages[m] {
        if m >= k {
          PageAt(rows, limit, pages, m);
          CursorsAscend(rows, limit, pages, k, m);
          assert e !in Eligible(rows, CursorAt(limit, pages, m));
        }
      }
    }
  }

  /** No two rows share a timestamp that is a whole second. */
  predicate NoWholeTies(rows: set<Stored>) {
    forall e, f :: e in rows && f in rows && e != f && Time(e) == Time(f) ==> Time(e) % SECOND != 0
  }

  // ---- Which tables lose rows -------------------------------------------------------------------

  function Earlier(rows: set<Stored>, t: int): set<Stored> { set e | e in rows && Time(e) < t }

  function UpTo(rows: set<Stored>, t: int): set<Stored> { set e | e in rows && Time(e) <= t }

  /** The page after the cursor ends inside a group of rows that share the whole second `t`: fewer than a page of
      rows come before the group, and more than a page up to its end. */
  predicate SplitsAt(rows: set<Stored>, cursor: Option<int>, limit: nat, t: int) {
    && t % SECOND == 0
    && |Earlier(Eligible(rows, cursor), t)| < limit
    && |UpTo(Eligible(rows, cursor), t)| > limit
  }

  /** The last row of a page that splits a group is in the group, and so is some row that is left out. */
  lemma SplitLeavesRow(rows: set<Stored>, cursor: Option<int>, limit: nat, page: seq<Stored>, t: int)
      returns (e: Stored)
    requires limit > 0 && IsPage(rows, cursor, limit, page) && SplitsAt(rows, cursor, limit, t)
    ensures NextCursor(limit, page) == Some(t) && e in Eligible(rows, cursor) && e !in page && Time(e) == t
  {
    var eligible := Eligible(rows, cursor);
    var before, upto := Earlier(eligible, t), UpTo(eligible, t);
    SubsetSize(upto, eligible);
    MembersCount(page);
    var last := page[limit - 1];
    if Time(last) < t { SubsetSize(Members(page), before); }
    if upto <= Members(page) { SubsetSize(upto, Members(page)); }
    e :| e in upto && e !in page;
    assert Time(last) <= Time(e);
  }

  /** A row at the cursor of a page that does not show it, but could have, witnesses a split. */
  lemma LeftRowSplits(rows: set<Stored>, cursor: Option<int>, limit: nat, page: seq<Stored>, e: Stored)
    requires limit > 0 && IsPage(rows, cursor, limit, page) && e in Eligible(rows, cursor) && e !in page
    requires NextCursor(limit, page) == Some(Time(e))
    ensures SplitsAt(rows, cursor, limit, Time(e))
  {
    LeftBehind(rows, cursor, limit, page, e);
    var eligible, last, t := Eligible(rows, cursor), page[limit - 1], Time(e);
    var before, upto := Earlier(eligible, t), UpTo(eligible, t);
    MembersCount(page);
    assert last in Members(page) && before <= Members(page) - {last};
    SubsetSize(before, Members(page) - {last});
    assert Members(page) + {e} <= upto;
    SubsetSize(Members(page) + {e}, upto);
  }

  /** A row at a cursor that is on no page up to there was split off by an earlier page. */
  lemma {:induction false} SplitBefore(rows: set<Stored>, limit: nat, pages: seq<seq<Stored>>, e: Stored, k: nat)
      returns (j: nat)
    requires Walk(rows, limit, pages) && e in rows && 0 < k < |pages|
    requires CursorAt(limit, pages, k) == Some(Time(e)) && !VisitedBefore(pages, k, e)
    ensures j < k && SplitsAt(rows, CursorAt(limit, pages, j), limit, Time(e))
  {
    PageAt(rows, limit, pages, k - 1);
    assert e !in pages[k - 1];
    if k > 1 && CursorAt(limit, pages, k - 1) == Some(Time(e)) {
      j := SplitBefore(rows, limit, pages, e, k - 1);
    } else {
      if k > 1 { CursorsAscend(rows, limit, pages, k - 1, k); }
      j := k - 1;
      LeftRowSplits(rows, CursorAt(limit, pages, j), limit, pages[j], e);
    }
  }

  /** A row that is still eligible before page k, at a whole second, was on no earlier page. */
  lemma EligibleIsNew(rows: set<Stored>, limit: nat, pages: seq<seq<Stored>>, e: Stored, k: nat)
    requires Walk(rows, limit, pages) && k < |pages| && e in Eligible(rows, CursorAt(limit, pages, k))
        && Time(e) % SECOND == 0
    ensures !VisitedBefore(pages, k, e)
  {
    forall j | 0 <= j < k ensures e !in pages[j] {
      PageAt(rows, limit, pages, j);
      PageAt(rows, limit, pages, j + 1);
      PageAt(rows, limit, pages, k);
      CursorsAscend(rows, limit, pages, j + 1, k);
      AfterCursorNotShown(limit, pages[j], e);
    }
  }

  /** A row at a whole second that lies after the page's cursor is not on the page. */
  lemma AfterCursorNotShown(limit: nat, page: seq<Stored>, e: Stored)
    requires limit > 0 && Ascending(page) && NextCursor(limit, page).Some?
    requires Time(e) % SECOND == 0 && Time(e) > NextCursor(limit, page).value
    ensures e !in page
  {
    forall i | 0 <= i < |page| ensures page[i] != e {
      assert i < limit - 1 ==> Time(page[i]) <= Time(page[limit - 1]);
      WholeSecondKept(Time(page[i]), Time(page[limit - 1]));
    }
  }

  lemma WholeSecondKept(t: int, u: int)
    requires t <= u
    ensures t % SECOND == 0 ==> t <= Trunc(u)
  {
  }

  /** A complete walk shows every matching row if and only if none of its pages ends inside a group of rows that
      share a whole second. `PaginationTable` says the same of the table and the limit alone. */
  lemma AllVisitedAlong(rows: set<Stored>, limit: nat, pages: seq<seq<Stored>>)
    requires Walk(rows, limit, pages) && Complete(limit, pages)
    ensures (forall e :: e in rows ==> Visited(pages, e))
            <==> forall k, t :: 0 <= k < |pages| ==> !SplitsAt(rows, CursorAt(limit, pages, k), limit, t)
  {
    if e :| e in rows && !Visited(pages, e) {
      MissedExactly(rows, limit, pages, e);
      var k :| 0 < k < |pages| && CursorAt(limit, pages, k) == Some(Time(e)) && !VisitedBefore(pages, k, e);
      var j := SplitBefore(rows, limit, pages, e, k);
    }
    if k, t :| 0 <= k < |pages| && SplitsAt(rows, CursorAt(limit, pages, k), limit, t) {
      PageAt(rows, limit, pages, k);
      var e := SplitLeavesRow(rows, CursorAt(limit, pages, k), limit, pages[k], t);
      EligibleIsNew(rows, limit, pages, e, k);
      assert CursorAt(limit, pages, k + 1) == Some(t);
      MissedExactly(rows, limit, pages, e);
    }
  }

  /** If no two rows share a whole second, a complete walk shows every matching row. */
  lemma CompleteWalkVisitsAll(rows: set<Stored>, limit: nat, pages: seq<seq<Stored>>)
    requires Walk(rows, limit, pages) && Complete(limit, pages) && NoWholeTies(rows)
    ensures forall e :: e in rows ==> Visited(pages, e)
  {
    forall k, t | 0 <= k < |pages| ensures !SplitsAt(rows, CursorAt(limit, pages, k), limit, t) {
      PageAt(rows, limit, pages, k);
      if SplitsAt(rows, CursorAt(limit, pages, k), limit, t) {
        SplitIsTie(rows, CursorAt(limit, pages, k), limit, pages[k], t);
      }
    }
    AllVisitedAlong(rows, limit, pages);
  }

  lemma SplitIsTie(rows: set<Stored>, cursor: Option<int>, limit: nat, page: seq<Stored>, t: int)
    requires limit > 0 && IsPage(rows, cursor, limit, page) && SplitsAt(rows, cursor, limit, t)
    ensures !NoWholeTies(rows)
  {
    var e := SplitLeavesRow(rows, cursor, limit, page, t);
    var last := page[limit - 1];
    LeftBehind(rows, cursor, limit, page, e);
    assert last in Eligible(rows, cursor);
    assert last in rows && e in rows && last != e && Time(last) == Time(e);
  }

  function At(id: nat, time: int): Stored {
    Stored(id, PacketRow(time, NoAddr, NoAddr, 0, 0, "", 0, 0), "")
  }

  /** Two rows at the same whole second and one row a page: the walk ends without the second row. */
  lemma TieIsMissed() returns (rows: set<Stored>, pages: seq<seq<Stored>>, e: Stored)
    ensures Walk(rows, 1, pages) && Complete(1, pages) && e in rows && !Visited(pages, e)
  {
    var a := At(0, SECOND);
    e := At(1, SECOND);
    rows, pages := {a, e}, [[a], []];
    assert Eligible(rows, None) == rows;
    assert Trunc(SECOND) == SECOND;
    assert Eligible(rows, Some(SECOND)) == {};
    assert Follows(rows, 1, pages[0], pages[1]);
  }

  // ---- Termination ------------------------------------------------------------------------------

  /** The rows strictly inside the second after the whole second `from`. */
  function Inside(rows: set<Stored>, from: int): set<Stored> { set e | e in rows && from < Time(e) < from + SECOND }

  /** Some open one-second interval holds at least a page of rows. */
  ghost predicate Dense(rows: set<Stored>, limit: nat) {
    exists from :: from % SECOND == 0 && |Inside(rows, from)| >= limit
  }

  /** Each full page moves at least one row out of reach, unless a second is dense. */
  lemma PageAdvances(rows: set<Stored>, cursor: Option<int>, limit: nat, page: seq<Stored>)
    requires limit > 0 && IsPage(rows, cursor, limit, page) && |page| == limit && !Dense(rows, limit)
    ensures |Eligible(rows, NextCursor(limit, page))| < |Eligible(rows, cursor)|
  {
    var next := NextCursor(limit, page).value;
    var last := page[limit - 1];
    assert last in Eligible(rows, cursor);
    if forall e :: e in page ==> Time(e) > next {
      assert next % SECOND == 0;
      MembersCount(page);
      assert Members(page) <= Inside(rows, next);
      SubsetSize(Members(page), Inside(rows, next));
    }
    var e :| e in page && Time(e) <= next;
    assert Eligible(rows, Some(next)) <= Eligible(rows, cursor) - {e};
    SubsetSize(Eligible(rows, Some(next)), Eligible(rows, cursor) - {e});
  }

  lemma {:induction false} WalkShrinks(rows: set<Stored>, limit: nat, pages: seq<seq<Stored>>, k: nat)
    requires Walk(rows, limit, pages) && !Dense(rows, limit) && k < |pages|
    ensures |Eligible(rows, CursorAt(limit, pages, k))| + k <= |rows|
  {
    if k == 0 {
      assert Eligible(rows, None) == rows;
    } else {
      WalkShrinks(rows, limit, pages, k - 1);
      PageAt(rows, limit, pages, k - 1);
      PageAt(rows, limit, pages, k);
      PageAdvances(rows, CursorAt(limit, pages, k - 1), limit, pages[k - 1]);
    }
  }

  /** With a dense second no walk ever gets past it: every page is full and its cursor is not beyond that second. */
  lemma {:induction false} DenseSecondHolds(rows: set<Stored>, limit: nat, pages: seq<seq<Stored>>, from: int, k: nat)
    requires Walk(rows, limit, pages) && from % SECOND == 0 && |Inside(rows, from)| >= limit && k < |pages|
    ensures NextCursor(limit, pages[k]).Some? && NextCursor(limit, pages[k]).value <= from
  {
    var cursor := CursorAt(limit, pages, k);
    if k == 0 {
    } else {
      DenseSecondHolds(rows, limit, pages, from, k - 1);
    }
    PageAt(rows, limit, pages, k);
    var page, inside := pages[k], Inside(rows, from);
    assert inside <= Eligible(rows, cursor);
    SubsetSize(inside, Eligible(rows, cursor));
    DenseSecondCaps(rows, cursor, limit, page, from);
  }

  /** The page taken from before a dense second ends in or before it. */
  lemma DenseSecondCaps(rows: set<Stored>, cursor: Option<int>, limit: nat, page: seq<Stored>, from: int)
    requires limit > 0 && IsPage(rows, cursor, limit, page) && |page| == limit
    requires from % SECOND == 0 && |Inside(rows, from)| >= limit && Inside(rows, from) <= Eligible(rows, cursor)
    ensures NextCursor(limit, page).value <= from
  {
    var inside, last := Inside(rows, from), page[limit - 1];
    if Time(last) >= from + SECOND {
      MembersCount(page);
      assert inside + {last} <= Members(page);
      SubsetSize(inside + {last}, Members(page));
    }
  }

  /** When pagination ends: if every open one-second interval holds fewer rows than a page, every walk is at most
      one page longer than the number of rows; and if some interval does not, no walk ever gets a null cursor. */
  lemma WalksEndExactly(rows: set<Stored>, limit: nat)
    requires limit > 0
    ensures !Dense(rows, limit) ==> forall pages :: Walk(rows, limit, pages) ==> |pages| <= |rows| + 1
    ensures Dense(rows, limit) ==> forall pages :: Walk(rows, limit, pages) ==> !Complete(limit, pages)
  {
    forall pages | Walk(rows, limit, pages)
      ensures !Dense(rows, limit) ==> |pages| <= |rows| + 1
      ensures Dense(rows, limit) ==> !Complete(limit, pages)
    {
      if Dense(rows, limit) {
        var from :| from % SECOND == 0 && |Inside(rows, from)| >= limit;
        DenseSecondHolds(rows, limit, pages, from, |pages| - 1);
      } else {
        WalkShrinks(rows, limit, pages, |pages| - 1);
      }
    }
  }

  /** A single row off the whole second and one row a page: following the cursor never ends. */
  lemma OneRowNeverEnds()
    ensures forall pages :: Walk({At(0, 1)}, 1, pages) ==> !Complete(1, pages)
  {
    assert Inside({At(0, 1)}, 0) == {At(0, 1)};
    assert 0 % SECOND == 0;
    WalksEndExactly({At(0, 1)}, 1);
  }

  /** The earliest of some rows. */
  lemma {:induction false} Earliest(s: set<Stored>) returns (e: Stored)
    requires s != {}
    ensures e in s && forall f :: f in s ==> Time(e) <= Time(f)
  {
    e :| e in s;
    if s != {e} {
      var f := Earliest(s - {e});
      if Time(f) < Time(e) { e := f; }
    }
  }

  /** The database always has an answer. */
  lemma {:induction false} PageExists(rows: set<Stored>, cursor: Option<int>, limit: nat) returns (page: seq<Stored>)
    ensures IsPage(rows, cursor, limit, page)
    decreases |rows|, limit
  {
    var eligible := Eligible(rows, cursor);
    if eligible == {} || limit == 0 {
      page := [];
    } else {
      var e := Earliest(eligible);
      var rest := PageExists(rows - {e}, cursor, limit - 1);
      assert Eligible(rows - {e}, cursor) == eligible - {e};
      page := [e] + rest;
    }
  }

  lemma {:induction false} WalkContinues(rows: set<Stored>, limit: nat, pages: seq<seq<Stored>>)
      returns (all: seq<seq<Stored>>)
    requires Walk(rows, limit, pages) && !Dense(rows, limit)
    ensures Walk(rows, limit, all) && Complete(limit, all)
    decreases |rows| + 1 - |pages|
  {
    WalksEndExactly(rows, limit);
    if Complete(limit, pages) {
      all := pages;
    } else {
      var page := PageExists(rows, NextCursor(limit, pages[|pages| - 1]), limit);
      all := WalkContinues(rows, limit, pages + [page]);
    }
  }

  /** Without a dense second a complete walk exists. */
  lemma CompleteWalkExists(rows: set<Stored>, limit: nat) returns (pages: seq<seq<Stored>>)
    requires limit > 0 && !Dense(rows, limit)
    ensures Walk(rows, limit, pages) && Complete(limit, pages)
  {
    var first := PageExists(rows, None, limit);
    pages := WalkContinues(rows, limit, [first]);
  }

  // ---- Without the time column ------------------------------------------------------------------

  /** If `time` is not selected, a full page's cursor is the zero time, and for rows after year 1 that cursor asks
      for the first page again; so the walk either ends with its first page or never gets anywhere. */
  lemma NoTimeColumnNoProgress(rows: set<Stored>, limit: nat, columns: seq<Column>, page: seq<Stored>)
    requires limit > 0 && TimestampCol !in columns && IsPage(rows, None, limit, page)
    requires forall e :: e in rows ==> Time(e) > ZERO_TIME
    ensures CursorOf(columns, limit, page).Some? <==> |rows| >= limit
    ensures CursorOf(columns, limit, page).Some? ==>
      && CursorOf(columns, limit, page) == Some(ZERO_TIME)
      && forall next :: IsPage(rows, Some(ZERO_TIME), limit, next) <==> IsPage(rows, None, limit, next)
  {
    assert Eligible(rows, None) == rows;
    assert Eligible(rows, Some(ZERO_TIME)) == rows;
  }
}
