/**
 From request parameters to parameterised SQL: validation, the builder loop, a parser for the text it
 emits, and what the text means with its arguments.
*/
module PacketQuery {
  import opened Wrappers
  import opened Text
  import opened PacketFilters

  // ---- Parameters -------------------------------------------------------------------------------

  const DEFAULT_COLUMNS: seq<string> :=
    ["time", "src_ip", "dst_ip", "src_port", "dst_port", "protocol", "length", "tcp_flags"]

  /** The query string: first values, and all values of `filter`; "" for an absent one. */
  datatype RawParams = RawParams(limit: string, fields: string, cursor: string, order: string, filters: seq<string>)

  /** A cursor is an instant; how RFC 3339 text denotes it is left to the caller. */
  datatype Params = Params(limit: int, columns: seq<string>, cursor: Option<int>, order: string, filters: seq<Filter>)

  datatype ParamError =
    | InvalidLimit | LimitOutOfRange | InvalidField(field: string) | InvalidCursor | InvalidOrder
    | InvalidFilter(e: FilterError)

  function ResolveOrder(order: string): Option<string> {
    match order
    case "desc" => Some("DESC")
    case "" => Some("ASC")
    case "asc" => Some("ASC")
    case _ => None
  }

  predicate ValidFilter(f: Filter) {
    ValidField(f.field) && f.operator in ["=", "!=", ">", "<", ">=", "<="]
  }

  /** What validation establishes. */
  predicate Validated(q: Params) {
    && 1 <= q.limit <= 100
    && q.columns != [] && (forall i :: 0 <= i < |q.columns| ==> ValidField(q.columns[i]))
    && q.order in ["ASC", "DESC"]
    && (forall i :: 0 <= i < |q.filters| ==> ValidFilter(q.filters[i]))
  }

  method ResolveColumns(columns: seq<string>) returns (r: Result<seq<string>, string>)
    ensures r.Success? <==> forall i :: 0 <= i < |columns| ==>
      columns[i] in ["time", "src_ip", "dst_ip", "src_port", "dst_port", "protocol", "length", "tcp_flags", "job_id"]
    ensures r.Success? ==> r.value == if columns == [] then DEFAULT_COLUMNS else columns
    ensures r.Failure? ==> r.error in columns && !ValidField(r.error)
  {
    if |columns| == 0 {
      return Success(DEFAULT_COLUMNS);
    }
    var validated: seq<string> := [];
    for i := 0 to |columns|
      invariant validated == columns[..i] && forall k :: 0 <= k < i ==> ValidField(columns[k])
    {
      if !ValidField(columns[i]) {
        return Failure(columns[i]);
      }
      validated := validated + [columns[i]];
    }
    assert columns[..|columns|] == columns;
    return Success(validated);
  }

  function LimitOf(raw: RawParams): Option<int> { Atoi(if raw.limit == "" then "100" else raw.limit) }

  function ColumnsOf(raw: RawParams): seq<string> { if raw.fields == "" then [] else Split(raw.fields, ',') }

  // The parts of an acceptable request.
  predicate LimitReads(raw: RawParams) { raw.limit == "" || Atoi(raw.limit).Some? }

  predicate LimitFits(raw: RawParams) { raw.limit == "" || (LimitReads(raw) && 1 <= Atoi(raw.limit).value <= 100) }

  predicate FieldsKnown(raw: RawParams) {
    raw.fields == "" || forall i :: 0 <= i < |Split(raw.fields, ',')| ==> ValidField(Split(raw.fields, ',')[i])
  }

  predicate CursorReads(raw: RawParams, parseTime: string -> Option<int>) {
    raw.cursor == "" || parseTime(raw.cursor).Some?
  }

  predicate OrderKnown(raw: RawParams) { raw.order == "" || raw.order == "asc" || raw.order == "desc" }

  ghost predicate FiltersKnown(raw: RawParams) { forall i :: 0 <= i < |raw.filters| ==> Acceptable(raw.filters[i]) }

  ghost predicate WellFormed(raw: RawParams, parseTime: string -> Option<int>) {
    LimitFits(raw) && FieldsKnown(raw) && CursorReads(raw, parseTime) && OrderKnown(raw) && FiltersKnown(raw)
  }

  /** The parameters say what the request says: 100 rows, all columns but the job, no cursor and ascending order
      where it says nothing. */
  ghost predicate Says(raw: RawParams, parseTime: string -> Option<int>, q: Params) {
    && (if raw.limit == "" then q.limit == 100 else Atoi(raw.limit) == Some(q.limit))
    && (if raw.fields == "" then
          q.columns == ["time", "src_ip", "dst_ip", "src_port", "dst_port", "protocol", "length", "tcp_flags"]
        else Join(q.columns, ",") == raw.fields && forall i :: 0 <= i < |q.columns| ==> ',' !in q.columns[i])
    && q.cursor == (if raw.cursor == "" then None else parseTime(raw.cursor))
    && q.order == (if raw.order == "desc" then "DESC" else "ASC")
    && Encodings(raw.filters, q.filters)
    && forall i :: 0 <= i < |raw.filters| ==> Obeys(raw.filters[i], q.filters[i])
  }

  /** The error names the first fault in the order of the checks. */
  ghost predicate Faults(raw: RawParams, parseTime: string -> Option<int>, e: ParamError) {
    match e
    case InvalidLimit => !LimitReads(raw)
    case LimitOutOfRange => LimitReads(raw) && !LimitFits(raw)
    case InvalidField(f) => LimitFits(raw) && raw.fields != "" && f in Split(raw.fields, ',') && !ValidField(f)
    case InvalidCursor => LimitFits(raw) && FieldsKnown(raw) && !CursorReads(raw, parseTime)
    case InvalidOrder => LimitFits(raw) && FieldsKnown(raw) && CursorReads(raw, parseTime) && !OrderKnown(raw)
    case InvalidFilter(f) =>
      && LimitFits(raw) && FieldsKnown(raw) && CursorReads(raw, parseTime) && OrderKnown(raw)
      && exists i :: 0 <= i < |raw.filters| && FirstFault(raw.filters, i, f)
  }

  lemma DefaultLimit()
    ensures Atoi("100") == Some(100)
  {
    AtoiFormat(100);
    assert Decimal(1) == "1" && Decimal(10) == "10" && Decimal(100) == "100";
  }

  /** parseListPacketsParams accepts exactly the well-formed requests, and what it returns is validated and says
      what the request says; otherwise it names the first fault. */
  method ParseListPacketsParams(raw: RawParams, parseTime: string -> Option<int>)
      returns (r: Result<Params, ParamError>)
    ensures r.Success? <==> WellFormed(raw, parseTime)
    ensures r.Success? ==>
      Validated(r.value) && Says(raw, parseTime, r.value)
    ensures r.Failure? ==> Faults(raw, parseTime, r.error)
  {
    DefaultLimit();
    JoinSplit(raw.fields, ',');
    var limit := LimitOf(raw);
    if limit.None? {
      return Failure(InvalidLimit);
    }
    if limit.value > 100 || limit.value < 1 {
      return Failure(LimitOutOfRange);
    }
    var columns := ResolveColumns(ColumnsOf(raw));
    if columns.Failure? {
      return Failure(InvalidField(columns.error));
    }
    var cursor: Option<int> := None;
    if raw.cursor != "" {
      cursor := parseTime(raw.cursor);
      if cursor.None? {
        return Failure(InvalidCursor);
      }
    }
    var order := ResolveOrder(raw.order);
    if order.None? {
      return Failure(InvalidOrder);
    }
    var filters := ResolveFilters(raw.filters);
    if filters.Failure? {
      return Failure(InvalidFilter(filters.error));
    }
    EncodedFiltersAreValid(raw.filters, filters.value);
    return Success(Params(limit.value, columns.value, cursor, order.value, filters.value));
  }

  lemma EncodedFiltersAreValid(entries: seq<string>, filters: seq<Filter>)
    requires Encodings(entries, filters)
    ensures forall i :: 0 <= i < |filters| ==> ValidFilter(filters[i])
  {
    forall i | 0 <= i < |filters| ensures ValidFilter(filters[i]) {
      assert Denotes(entries[i], filters[i]);
    }
  }

  // ---- The builder ------------------------------------------------------------------------------

  datatype Arg = TimeArg(t: int) | TextArg(s: string) | LimitArg(n: int)

  /** A comparison with a placeholder. */
  datatype Clause = Clause(field: string, operator: string, param: nat)

  /** The parsed statement. */
  datatype Select = Select(columns: seq<string>, clauses: seq<Clause>, order: string, limitParam: nat)

  function ClauseText(c: Clause): string { c.field + " " + c.operator + " $" + Decimal(c.param) }

  function Texts(cs: seq<Clause>): (ts: seq<string>)
    ensures |ts| == |cs|
  {
    seq(|cs|, i requires 0 <= i < |cs| => ClauseText(cs[i]))
  }

  /** The comparisons the parameters call for: the cursor bound first, then the filters, numbered from 1. */
  function Bounds(q: Params): seq<(string, string, Arg)> {
    (if q.cursor.Some? then [("time", ">", TimeArg(q.cursor.value))] else [])
    + seq(|q.filters|, i requires 0 <= i < |q.filters| =>
        (q.filters[i].field, q.filters[i].operator, TextArg(q.filters[i].value)))
  }

  function Numbered(bs: seq<(string, string, Arg)>): (cs: seq<Clause>)
    ensures |cs| == |bs|
  {
    seq(|bs|, i requires 0 <= i < |bs| => Clause(bs[i].0, bs[i].1, i + 1))
  }

  function Args(q: Params): seq<Arg> {
    seq(|Bounds(q)|, i requires 0 <= i < |Bounds(q)| => Bounds(q)[i].2) + [LimitArg(q.limit)]
  }

  /** The statement the parameters stand for. */
  function Meant(q: Params): Select {
    Select(q.columns, Numbered(Bounds(q)), q.order, |Bounds(q)| + 1)
  }

  function SelectText(s: Select): string {
    "SELECT " + Join(s.columns, ", ") + " FROM packet_logs"
    + (if s.clauses == [] then "" else " WHERE " + Join(Texts(s.clauses), " AND "))
    + " ORDER BY time " + s.order + " LIMIT $" + Decimal(s.limitParam)
  }

  /** The comparisons and arguments of the first k bounds. */
  predicate Gathered(q: Params, clauses: seq<string>, args: seq<Arg>, k: nat) {
    && k == |clauses| == |args| <= |Bounds(q)|
    && clauses == Texts(Numbered(Bounds(q)))[..k]
    && args == Args(q)[..k]
  }

  method BuildPacketQuery(q: Params) returns (query: string, args: seq<Arg>)
    ensures query == SelectText(Meant(q)) && args == Args(q)
  {
    args := [];
    var whereClauses: seq<string> := [];
    var argIdx: nat := 1;
    ghost var skip := if q.cursor.Some? then 1 else 0;
    if q.cursor.Some? {
      CursorBound(q);
      whereClauses := whereClauses + ["time > $" + Decimal(argIdx)];
      args := args + [TimeArg(q.cursor.value)];
      argIdx := argIdx + 1;
    }
    for i := 0 to |q.filters|
      invariant argIdx == skip + i + 1
      invariant Gathered(q, whereClauses, args, skip + i)
    {
      var f := q.filters[i];
      FilterBound(q, i);
      whereClauses := whereClauses + [f.field + " " + f.operator + " $" + Decimal(argIdx)];
      args := args + [TextArg(f.value)];
      argIdx := argIdx + 1;
    }
    AllGathered(q, whereClauses, args, argIdx);
    args := args + [LimitArg(q.limit)];
    var columnString := Join(q.columns, ", ");
    var where := "";
    if |whereClauses| > 0 {
      where := " WHERE " + Join(whereClauses, " AND ");
    }
    query := "SELECT " + columnString + " FROM packet_logs" + where + " ORDER BY time " + q.order + " LIMIT $"
        + Decimal(argIdx);
  }

  lemma AllGathered(q: Params, clauses: seq<string>, args: seq<Arg>, next: nat)
    requires Gathered(q, clauses, args, (if q.cursor.Some? then 1 else 0) + |q.filters|) && next == |clauses| + 1
    ensures args + [LimitArg(q.limit)] == Args(q)
    ensures SelectText(Meant(q)) == "SELECT " + Join(q.columns, ", ") + " FROM packet_logs"
              + (if |clauses| > 0 then " WHERE " + Join(clauses, " AND ") else "")
              + " ORDER BY time " + q.order + " LIMIT $" + Decimal(next)
  {
    assert |Bounds(q)| == |clauses|;
    assert clauses == Texts(Numbered(Bounds(q)));
  }

  lemma CursorBound(q: Params)
    requires q.cursor.Some?
    ensures |Bounds(q)| == 1 + |q.filters|
    ensures Texts(Numbered(Bounds(q)))[..1] == ["time > $" + Decimal(1)] && Args(q)[..1] == [TimeArg(q.cursor.value)]
  {
    assert Bounds(q)[0] == ("time", ">", TimeArg(q.cursor.value));
    assert "time" + " " + ">" + " $" + Decimal(1) == "time > $" + Decimal(1);
  }

  /** The comparison and the argument of filter i, after the cursor's if there is one. */
  lemma FilterBound(q: Params, i: nat)
    requires i < |q.filters|
    ensures var k, f := (if q.cursor.Some? then 1 else 0) + i, q.filters[i];
      && |Bounds(q)| == k - i + |q.filters|
      && Texts(Numbered(Bounds(q)))[..k + 1] == Texts(Numbered(Bounds(q)))[..k]
          + [f.field + " " + f.operator + " $" + Decimal(k + 1)]
      && Args(q)[..k + 1] == Args(q)[..k] + [TextArg(f.value)]
  {
    var k, f := (if q.cursor.Some? then 1 else 0) + i, q.filters[i];
    assert Bounds(q)[k] == (f.field, f.operator, TextArg(f.value));
  }

  // ---- The parser -------------------------------------------------------------------------------

  function ParsePlaceholder(w: string): Option<nat> {
    if w != "" && w[0] == '$' then ParseNat(w[1..]) else None
  }

  /** Column names, all but the last followed by a comma; yields them and the remaining words. */
  function ParseColumns(ws: seq<string>): Option<(seq<string>, seq<string>)> {
    if ws == [] || ws[0] == "" then None
    else
      var w := ws[0];
      if w[|w| - 1] != ',' then Some(([w], ws[1..]))
      else
        var rest := ParseColumns(ws[1..]);
        if rest.None? then None else Some(([w[..|w| - 1]] + rest.value.0, rest.value.1))
  }

  function ParseClauses(ws: seq<string>): Option<(seq<Clause>, seq<string>)> {
    if |ws| < 3 || ParsePlaceholder(ws[2]).None? then None
    else
      var c := Clause(ws[0], ws[1], ParsePlaceholder(ws[2]).value);
      if |ws| > 3 && ws[3] == "AND" then
        var rest := ParseClauses(ws[4..]);
        if rest.None? then None else Some(([c] + rest.value.0, rest.value.1))
      else Some(([c], ws[3..]))
  }

  function ParseTail(columns: seq<string>, clauses: seq<Clause>, ws: seq<string>): Option<Select> {
    if |ws| == 6 && ws[..3] == ["ORDER", "BY", "time"] && ws[4] == "LIMIT" && ParsePlaceholder(ws[5]).Some?
    then Some(Select(columns, clauses, ws[3], ParsePlaceholder(ws[5]).value)) else None
  }

  /** The words after the table name. */
  function ParseRest(columns: seq<string>, rest: seq<string>): Option<Select> {
    if rest != [] && rest[0] == "WHERE" then
      var cs := ParseClauses(rest[1..]);
      if cs.None? then None else ParseTail(columns, cs.value.0, cs.value.1)
    else ParseTail(columns, [], rest)
  }

  function ParseWords(ws: seq<string>): Option<Select> {
    if |ws| == 0 || ws[0] != "SELECT" then None
    else
      var cols := ParseColumns(ws[1..]);
      if cols.None? || |cols.value.1| < 2 || cols.value.1[..2] != ["FROM", "packet_logs"] then None
      else
        ParseRest(cols.value.0, cols.value.1[2..])
  }

  /** A parser for the emitted statements. */
  function Parse(text: string): Option<Select> { ParseWords(Split(text, ' ')) }

  // ---- The round trip ---------------------------------------------------------------------------

  function ColumnWords(columns: seq<string>): seq<string> {
    if |columns| <= 1 then columns else [columns[0] + ","] + ColumnWords(columns[1..])
  }

  function Tokens(c: Clause): seq<string> { [c.field, c.operator, "$" + Decimal(c.param)] }

  function ClauseWords(cs: seq<Clause>): seq<string> {
    if cs == [] then []
    else Tokens(cs[0]) + (if |cs| == 1 then [] else ["AND"] + ClauseWords(cs[1..]))
  }

  function TailWords(s: Select): seq<string> { ["ORDER", "BY", "time", s.order, "LIMIT", "$" + Decimal(s.limitParam)] }

  function Words(s: Select): seq<string> {
    ["SELECT"] + ColumnWords(s.columns) + ["FROM", "packet_logs"]
    + (if s.clauses == [] then [] else ["WHERE"] + ClauseWords(s.clauses)) + TailWords(s)
  }

  /** Names and operators are words that do not look like punctuation. */
  predicate Plain(w: string) { w != "" && ' ' !in w && ',' !in w }

  predicate Printable(s: Select) {
    && s.columns != [] && (forall i :: 0 <= i < |s.columns| ==> Plain(s.columns[i]))
    && (forall i :: 0 <= i < |s.clauses| ==> Plain(s.clauses[i].field) && Plain(s.clauses[i].operator))
    && Plain(s.order)
  }

  lemma {:induction false} JoinConcat(ps: seq<string>, qs: seq<string>)
    requires ps != [] && qs != []
    ensures Join(ps + qs, " ") == Join(ps, " ") + " " + Join(qs, " ")
  {
    if |ps| == 1 {
      assert (ps + qs)[1..] == qs;
    } else {
      assert (ps + qs)[1..] == ps[1..] + qs;
      JoinConcat(ps[1..], qs);
    }
  }

  lemma {:induction false} ColumnText(columns: seq<string>)
    requires columns != []
    ensures ColumnWords(columns) != [] && Join(ColumnWords(columns), " ") == Join(columns, ", ")
  {
    if |columns| > 1 {
      ColumnText(columns[1..]);
      assert ColumnWords(columns)[1..] == ColumnWords(columns[1..]);
      assert columns[0] + "," + " " == columns[0] + ", ";
    }
  }

  lemma {:induction false} ClausesText(cs: seq<Clause>)
    requires cs != []
    ensures ClauseWords(cs) != [] && Join(ClauseWords(cs), " ") == Join(Texts(cs), " AND ")
  {
    var first := Tokens(cs[0]);
    OneClauseText(cs[0]);
    if |cs| == 1 {
      assert ClauseWords(cs) == first;
    } else {
      ClausesText(cs[1..]);
      var rest := ClauseWords(cs[1..]);
      JoinConcat(["AND"], rest);
      JoinConcat(first, ["AND"] + rest);
      assert Texts(cs)[1..] == Texts(cs[1..]);
      AndBetween(ClauseText(cs[0]), Join(rest, " "));
    }
  }

  lemma AndBetween(a: string, b: string)
    ensures a + " " + ("AND" + " " + b) == a + " AND " + b
  {
    assert " " + "AND" + " " == " AND ";
  }

  lemma OneClauseText(c: Clause)
    ensures Join(Tokens(c), " ") == ClauseText(c)
  {
    var ws := Tokens(c);
    assert ws[1..] == [c.operator, "$" + Decimal(c.param)];
    assert ws[1..][1..] == ["$" + Decimal(c.param)];
    assert Join(ws[1..], " ") == c.operator + " " + ("$" + Decimal(c.param));
    assert " " + "$" == " $";
  }

  lemma TailText(s: Select)
    ensures Join(TailWords(s), " ") == "ORDER BY time " + s.order + " LIMIT $" + Decimal(s.limitParam)
  {
    var n := "$" + Decimal(s.limitParam);
    JoinConcat(["ORDER", "BY", "time"], [s.order, "LIMIT", n]);
    assert TailWords(s) == ["ORDER", "BY", "time"] + [s.order, "LIMIT", n];
    JoinThree("ORDER", "BY", "time");
    JoinThree(s.order, "LIMIT", n);
  }

  lemma JoinThree(a: string, b: string, c: string)
    ensures Join([a, b, c], " ") == a + " " + b + " " + c
  {
    assert [a, b, c][1..] == [b, c];
    assert [b, c][1..] == [c];
    assert Join([b, c], " ") == b + " " + c;
    assert a + " " + (b + " " + c) == a + " " + b + " " + c;
  }

  function HeadWords(columns: seq<string>): seq<string> { ["SELECT"] + ColumnWords(columns) + ["FROM", "packet_logs"] }

  lemma TextWithoutClauses(s: Select)
    requires s.columns != [] && s.clauses == []
    ensures Join(Words(s), " ") == SelectText(s)
  {
    HeadText(s.columns);
    TailText(s);
    assert Words(s) == HeadWords(s.columns) + TailWords(s);
    JoinConcat(HeadWords(s.columns), TailWords(s));
    assert " " + "ORDER BY time " == " ORDER BY time ";
    var a, d, n := Join(s.columns, ", "), s.order, Decimal(s.limitParam);
    assert ("SELECT " + a + " FROM packet_logs") + " " + ("ORDER BY time " + d + " LIMIT $" + n)
        == "SELECT " + a + " FROM packet_logs" + "" + " ORDER BY time " + d + " LIMIT $" + n;
  }

  lemma TextWithClauses(s: Select)
    requires s.columns != [] && s.clauses != []
    ensures Join(Words(s), " ") == SelectText(s)
  {
    WordsWithClauses(s);
    HeadText(s.columns);
    TailText(s);
    ClausesText(s.clauses);
    var a, b, d, n := Join(s.columns, ", "), Join(Texts(s.clauses), " AND "), s.order, Decimal(s.limitParam);
    Regroup("SELECT " + a + " FROM packet_logs", b, d, n);
  }

  lemma WordsWithClauses(s: Select)
    requires s.columns != [] && s.clauses != []
    ensures Join(Words(s), " ") == Join(HeadWords(s.columns), " ") + " "
                                   + (("WHERE" + " " + Join(ClauseWords(s.clauses), " ")) + " "
                                       + Join(TailWords(s), " "))
  {
    var head, filter, tail := HeadWords(s.columns), ["WHERE"] + ClauseWords(s.clauses), TailWords(s);
    assert Words(s) == head + (filter + tail);
    JoinConcat(head, filter + tail);
    JoinConcat(filter, tail);
    JoinConcat(["WHERE"], ClauseWords(s.clauses));
  }

  lemma Regroup(head: string, clauses: string, order: string, param: string)
    ensures head + " " + (("WHERE" + " " + clauses) + " " + ("ORDER BY time " + order + " LIMIT $" + param))
         == head + (" WHERE " + clauses) + " ORDER BY time " + order + " LIMIT $" + param
  {
    assert " " + "WHERE" + " " == " WHERE ";
    assert " " + "ORDER BY time " == " ORDER BY time ";
    var rest := order + " LIMIT $" + param;
    assert "ORDER BY time " + order + " LIMIT $" + param == "ORDER BY time " + rest;
    assert " " + ("ORDER BY time " + rest) == " ORDER BY time " + rest;
  }

  /** The text is the words separated by single spaces. */
  lemma TextIsWords(s: Select)
    requires s.columns != []
    ensures Join(Words(s), " ") == SelectText(s)
  {
    if s.clauses == [] { TextWithoutClauses(s); } else { TextWithClauses(s); }
  }

  lemma HeadText(columns: seq<string>)
    requires columns != []
    ensures Join(HeadWords(columns), " ") == "SELECT " + Join(columns, ", ") + " FROM packet_logs"
  {
    ColumnText(columns);
    JoinConcat(["SELECT"], ColumnWords(columns));
    JoinConcat(["SELECT"] + ColumnWords(columns), ["FROM", "packet_logs"]);
    FromText();
    HeadRegroup(Join(columns, ", "));
  }

  lemma FromText()
    ensures Join(["FROM", "packet_logs"], " ") == "FROM packet_logs"
  {
    assert ["FROM", "packet_logs"][1..] == ["packet_logs"];
  }

  lemma HeadRegroup(columns: string)
    ensures "SELECT" + " " + columns + " " + "FROM packet_logs" == "SELECT " + columns + " FROM packet_logs"
  {
    assert " " + "FROM packet_logs" == " FROM packet_logs";
  }

  predicate Spaceless(ws: seq<string>) { forall i :: 0 <= i < |ws| ==> ' ' !in ws[i] }

  lemma PlaceholderPlain(n: nat)
    ensures ' ' !in "$" + Decimal(n)
    ensures ParsePlaceholder("$" + Decimal(n)) == Some(n)
  {
    DecimalRoundTrip(n);
    assert ("$" + Decimal(n))[1..] == Decimal(n);
  }

  lemma {:induction false} ColumnsSpaceless(columns: seq<string>)
    requires forall i :: 0 <= i < |columns| ==> Plain(columns[i])
    ensures Spaceless(ColumnWords(columns))
  {
    if |columns| > 1 { ColumnsSpaceless(columns[1..]); }
  }

  lemma {:induction false} ClausesSpaceless(cs: seq<Clause>)
    requires forall i :: 0 <= i < |cs| ==> Plain(cs[i].field) && Plain(cs[i].operator)
    ensures Spaceless(ClauseWords(cs))
  {
    if cs == [] {
    } else {
      PlaceholderPlain(cs[0].param);
      ClausesSpaceless(cs[1..]);
    }
  }

  lemma WordsSpaceless(s: Select)
    requires Printable(s)
    ensures Spaceless(Words(s))
  {
    ColumnsSpaceless(s.columns);
    ClausesSpaceless(s.clauses);
    PlaceholderPlain(s.limitParam);
  }

  lemma {:induction false} ColumnsParsed(columns: seq<string>, rest: seq<string>)
    requires columns != [] && forall i :: 0 <= i < |columns| ==> Plain(columns[i])
    ensures ParseColumns(ColumnWords(columns) + rest) == Some((columns, rest))
  {
    var ws := ColumnWords(columns) + rest;
    if |columns| == 1 {
      assert ws[0] == columns[0] && ws[1..] == rest;
      assert columns == [columns[0]];
    } else {
      ColumnsParsed(columns[1..], rest);
      assert ws[0] == columns[0] + "," && ws[1..] == ColumnWords(columns[1..]) + rest;
      assert ws[0][..|ws[0]| - 1] == columns[0];
      assert columns == [columns[0]] + columns[1..];
    }
  }

  lemma ClauseParsed(c: Clause, tail: seq<string>)
    ensures ParseClauses(Tokens(c) + tail) ==
        if tail != [] && tail[0] == "AND" then
          (var rest := ParseClauses(tail[1..]); if rest.None? then None else Some(([c] + rest.value.0, rest.value.1)))
        else Some(([c], tail))
  {
    PlaceholderPlain(c.param);
    var ws := Tokens(c) + tail;
    assert ws[3..] == tail;
    assert tail != [] ==> ws[3] == tail[0] && ws[4..] == tail[1..];
  }

  lemma {:induction false} ClausesParsed(cs: seq<Clause>, rest: seq<string>)
    requires cs != [] && (rest == [] || rest[0] != "AND")
    ensures ParseClauses(ClauseWords(cs) + rest) == Some((cs, rest))
  {
    ClauseWordsStep(cs, rest);
    if |cs| == 1 {
      ClauseParsed(cs[0], rest);
      assert cs == [cs[0]];
    } else {
      ClausesParsed(cs[1..], rest);
      MoreParsed(cs[0], ClauseWords(cs[1..]) + rest, cs[1..], rest);
      assert cs == [cs[0]] + cs[1..];
    }
  }

  lemma MoreParsed(c: Clause, more: seq<string>, cs: seq<Clause>, rest: seq<string>)
    requires ParseClauses(more) == Some((cs, rest))
    ensures ParseClauses(Tokens(c) + (["AND"] + more)) == Some(([c] + cs, rest))
  {
    var tail := ["AND"] + more;
    assert tail[0] == "AND" && tail[1..] == more;
    ClauseParsed(c, tail);
  }

  lemma ClauseWordsStep(cs: seq<Clause>, rest: seq<string>)
    requires cs != []
    ensures ClauseWords(cs) + rest == Tokens(cs[0]) + if |cs| == 1 then rest
        else ["AND"] + (ClauseWords(cs[1..]) + rest)
  {
    if |cs| == 1 {
      assert ClauseWords(cs) == Tokens(cs[0]) + [];
    } else {
      AppendNested(Tokens(cs[0]), ["AND"], ClauseWords(cs[1..]), rest);
    }
  }

  lemma AppendNested(xs: seq<string>, ys: seq<string>, zs: seq<string>, rest: seq<string>)
    ensures (xs + (ys + zs)) + rest == xs + (ys + (zs + rest))
  {
  }

  lemma TailParsed(s: Select)
    ensures ParseTail(s.columns, s.clauses, TailWords(s)) == Some(s)
  {
    PlaceholderPlain(s.limitParam);
    assert TailWords(s)[..3] == ["ORDER", "BY", "time"];
  }

  function RestWords(s: Select): seq<string> {
    (if s.clauses == [] then [] else ["WHERE"] + ClauseWords(s.clauses)) + TailWords(s)
  }

  lemma RestParsed(s: Select)
    ensures ParseRest(s.columns, RestWords(s)) == Some(s)
  {
    var tail := TailWords(s);
    TailParsed(s);
    if s.clauses == [] {
      assert RestWords(s) == tail;
    } else {
      assert RestWords(s)[0] == "WHERE" && RestWords(s)[1..] == ClauseWords(s.clauses) + tail;
      ClausesParsed(s.clauses, tail);
    }
  }

  lemma WordsParsed(s: Select)
    requires Printable(s)
    ensures ParseWords(Words(s)) == Some(s)
  {
    var rest := ["FROM", "packet_logs"] + RestWords(s);
    assert Words(s)[1..] == ColumnWords(s.columns) + rest;
    ColumnsParsed(s.columns, rest);
    assert rest[..2] == ["FROM", "packet_logs"] && rest[2..] == RestWords(s);
    RestParsed(s);
  }

  /** Parsing recovers every printable statement from its text. */
  lemma TextRoundTrip(s: Select)
    requires Printable(s)
    ensures Parse(SelectText(s)) == Some(s)
  {
    TextIsWords(s);
    WordsSpaceless(s);
    SplitJoin(Words(s), ' ');
    WordsParsed(s);
  }

  lemma ValidNamesArePlain()
    ensures forall f :: ValidField(f) ==> Plain(f)
    ensures forall op :: op in ["=", "!=", ">", "<", ">=", "<="] ==> Plain(op)
    ensures Plain("ASC") && Plain("DESC") && Plain("time") && Plain(">")
  {
  }

  lemma ValidatedIsPrintable(q: Params)
    requires Validated(q)
    ensures Printable(Meant(q))
  {
    ValidNamesArePlain();
    var bs := Bounds(q);
    forall i | 0 <= i < |bs| ensures Plain(bs[i].0) && Plain(bs[i].1) {
      var k := if q.cursor.Some? then i - 1 else i;
      if 0 <= k { assert ValidFilter(q.filters[k]); }
    }
  }

  /** The comparison numbered by clause k, and how a row is selected: `sat` says whether a row's field
      compares as stated to an argument, whatever that means for the column's type. */
  predicate Selected<R>(s: Select, args: seq<Arg>, sat: (R, string, string, Arg) -> bool, row: R) {
    forall k :: 0 <= k < |s.clauses| ==>
      1 <= s.clauses[k].param <= |args|
          && sat(row, s.clauses[k].field, s.clauses[k].operator, args[s.clauses[k].param - 1])
  }

  /** Round trip: for every validated request the emitted text parses back to the columns, the clauses in order and
      the direction asked for; its placeholders are exactly $1..$n for n arguments, each once and in order;
      and evaluated with the arguments it selects the rows that satisfy the cursor bound and all filters,
      whatever the comparisons mean, limited as asked. */
  lemma QueryMeansParams<R>(q: Params, sat: (R, string, string, Arg) -> bool)
    requires Validated(q)
    ensures Parse(SelectText(Meant(q))).Some?
    ensures var s := Parse(SelectText(Meant(q))).value;
      && s.columns == q.columns && s.order == q.order
      && |Args(q)| == |s.clauses| + 1 && s.limitParam == |Args(q)| && Args(q)[s.limitParam - 1] == LimitArg(q.limit)
      && (forall k :: 0 <= k < |s.clauses| ==> s.clauses[k].param == k + 1)
      && (forall row :: Selected(s, Args(q), sat, row) <==>
            && (q.cursor.Some? ==> sat(row, "time", ">", TimeArg(q.cursor.value)))
            && (forall i :: 0 <= i < |q.filters| ==>
                sat(row, q.filters[i].field, q.filters[i].operator, TextArg(q.filters[i].value))))
  {
    ValidatedIsPrintable(q);
    TextRoundTrip(Meant(q));
    forall row: R {
      SelectionMeaning(q, sat, row);
    }
  }

  lemma SelectionMeaning<R>(q: Params, sat: (R, string, string, Arg) -> bool, row: R)
    ensures Selected(Meant(q), Args(q), sat, row) <==>
            && (q.cursor.Some? ==> sat(row, "time", ">", TimeArg(q.cursor.value)))
            && (forall i :: 0 <= i < |q.filters| ==>
                sat(row, q.filters[i].field, q.filters[i].operator, TextArg(q.filters[i].value)))
  {
    SelectionIsBounds(q, sat, row);
    BoundsMeaning(q, sat, row);
  }

  predicate Satisfies<R>(bs: seq<(string, string, Arg)>, sat: (R, string, string, Arg) -> bool, row: R) {
    forall k :: 0 <= k < |bs| ==> sat(row, bs[k].0, bs[k].1, bs[k].2)
  }

  lemma MeantClauses(q: Params)
    ensures |Meant(q).clauses| == |Bounds(q)| < |Args(q)|
    ensures forall k :: 0 <= k < |Bounds(q)| ==>
      var cl := Meant(q).clauses[k];
      cl.param == k + 1 && cl.field == Bounds(q)[k].0 && cl.operator == Bounds(q)[k].1 && Args(q)[k] == Bounds(q)[k].2
  {
  }

  lemma SelectionIsBounds<R>(q: Params, sat: (R, string, string, Arg) -> bool, row: R)
    ensures Selected(Meant(q), Args(q), sat, row) <==> Satisfies(Bounds(q), sat, row)
  {
    MeantClauses(q);
    SelectedIff(Meant(q), Args(q), Bounds(q), sat, row);
  }

  lemma SelectedIff<R>(s: Select, args: seq<Arg>, bs: seq<(string, string, Arg)>,
      sat: (R, string, string, Arg) -> bool, row: R)
    requires |s.clauses| == |bs| <= |args|
    requires forall k :: 0 <= k < |bs| ==>
      s.clauses[k].param == k + 1 && s.clauses[k].field == bs[k].0 && s.clauses[k].operator == bs[k].1
          && args[k] == bs[k].2
    ensures Selected(s, args, sat, row) <==> Satisfies(bs, sat, row)
  {
    var cs := s.clauses;
    if Satisfies(bs, sat, row) {
      forall k | 0 <= k < |cs|
        ensures 1 <= cs[k].param <= |args| && sat(row, cs[k].field, cs[k].operator, args[cs[k].param - 1])
      {
        assert sat(row, bs[k].0, bs[k].1, bs[k].2);
      }
    }
  }

  lemma BoundsMeaning<R>(q: Params, sat: (R, string, string, Arg) -> bool, row: R)
    ensures Satisfies(Bounds(q), sat, row) <==>
            && (q.cursor.Some? ==> sat(row, "time", ">", TimeArg(q.cursor.value)))
            && (forall i :: 0 <= i < |q.filters| ==>
                sat(row, q.filters[i].field, q.filters[i].operator, TextArg(q.filters[i].value)))
  {
    var bs := Bounds(q);
    var skip := if q.cursor.Some? then 1 else 0;
    if q.cursor.Some? { assert bs[0] == ("time", ">", TimeArg(q.cursor.value)); }
    forall i | 0 <= i < |q.filters|
      ensures bs[skip + i] == (q.filters[i].field, q.filters[i].operator, TextArg(q.filters[i].value))
    {
    }
    if Satisfies(bs, sat, row) {
      forall i | 0 <= i < |q.filters|
        ensures sat(row, q.filters[i].field, q.filters[i].operator, TextArg(q.filters[i].value))
      {
        assert bs[skip + i].0 == q.filters[i].field;
      }
    } else {
      var k :| 0 <= k < |bs| && !sat(row, bs[k].0, bs[k].1, bs[k].2);
      assert k >= skip ==>
          bs[k] == (q.filters[k - skip].field, q.filters[k - skip].operator, TextArg(q.filters[k - skip].value));
    }
  }
}
