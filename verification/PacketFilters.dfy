/** Filter strings: what the API accepts, and what the Python client produces. */
module PacketFilters {
  import opened Wrappers
  import opened Text

  const VALID_FIELDS: seq<string> :=
    ["time", "src_ip", "dst_ip", "src_port", "dst_port", "protocol", "length", "tcp_flags", "job_id"]

  predicate ValidField(f: string) { f in VALID_FIELDS }

  /** The SQL operator of a filter operator. */
  function SqlOperator(op: string): Option<string> {
    match op
    case "eq" => Some("=")
    case "ne" => Some("!=")
    case "gt" => Some(">")
    case "lt" => Some("<")
    case "gte" => Some(">=")
    case "lte" => Some("<=")
    case _ => None
  }

  datatype Filter = Filter(field: string, operator: string, value: string)

  datatype FilterError = BadFormat(entry: string) | UnknownField(field: string) | UnknownOperator(op: string)

  /** The text field:op:value. */
  function Encode(field: string, op: string, value: string): string { field + ":" + op + ":" + value }

  /** The entry is the text of a filter with a known field and a known operator. */
  ghost predicate Denotes(entry: string, f: Filter) {
    ValidField(f.field) && exists op :: SqlOperator(op) == Some(f.operator) && entry == Encode(f.field, op, f.value)
  }

  ghost predicate Acceptable(entry: string) { exists f :: Denotes(entry, f) }

  lemma KnownNamesHaveNoColon()
    ensures forall f :: ValidField(f) ==> ':' !in f
    ensures forall op :: SqlOperator(op).Some? ==> ':' !in op
  {
  }

  /** SplitN recovers the three parts of an encoded filter, colons in the value included. */
  lemma SplitEncoded(field: string, op: string, value: string)
    requires ':' !in field && ':' !in op
    ensures SplitN(Encode(field, op, value), ':', 3) == [field, op, value]
  {
    var text := Encode(field, op, value);
    var tail := op + ":" + value;
    assert text == field + [':'] + tail;
    BeforeWord(field, ':', tail);
    assert text[|field| + 1..] == tail;
    assert text[|field|] == ':';
    assert tail == op + [':'] + value;
    BeforeWord(op, ':', value);
    assert tail[|op| + 1..] == value;
    assert tail[|op|] == ':';
    assert SplitN(value, ':', 1) == [value];
    assert SplitN(tail, ':', 2) == [op] + [value];
  }

  /** One cut at the first separator loses nothing. */
  lemma SplitStep(s: string, sep: char, n: nat) returns (head: string, tail: string)
    requires n >= 2
    ensures sep !in s ==> SplitN(s, sep, n) == [s]
    ensures sep in s ==> s == head + [sep] + tail && SplitN(s, sep, n) == [head] + SplitN(tail, sep, n - 1)
  {
    head, tail := s, "";
    if sep in s {
      BeforeProperties(s, sep);
      head := Before(s, sep);
      tail := s[|head| + 1..];
    }
  }

  lemma EncodeNests(field: string, op: string, value: string)
    ensures Encode(field, op, value) == field + [':'] + (op + [':'] + value)
  {
  }

  /** Three parts are the three parts of an encoded filter. */
  lemma SplitParts(entry: string)
    ensures var parts := SplitN(entry, ':', 3);
      |parts| == 3 ==> entry == Encode(parts[0], parts[1], parts[2])
  {
    var head, tail := SplitStep(entry, ':', 3);
    var mid, rest := SplitStep(tail, ':', 2);
    if ':' in entry && ':' in tail {
      EncodeNests(head, mid, rest);
      assert SplitN(rest, ':', 1) == [rest];
      assert SplitN(entry, ':', 3) == [head] + ([mid] + [rest]);
    }
  }

  lemma DenotesUnique(entry: string, f: Filter, g: Filter)
    requires Denotes(entry, f) && Denotes(entry, g)
    ensures f == g
  {
    KnownNamesHaveNoColon();
    var op :| SqlOperator(op) == Some(f.operator) && entry == Encode(f.field, op, f.value);
    var op' :| SqlOperator(op') == Some(g.operator) && entry == Encode(g.field, op', g.value);
    SplitEncoded(f.field, op, f.value);
    SplitEncoded(g.field, op', g.value);
  }

  /** The entries are the texts of the filters, one by one. */
  ghost predicate Encodings(entries: seq<string>, filters: seq<Filter>) {
    |entries| == |filters| && forall i :: 0 <= i < |entries| ==> Denotes(entries[i], filters[i])
  }

  // ---- What the operators ask for ---------------------------------------------------------------

  /** What a SQL comparison says of two numbers. */
  predicate Compare(operator: string, a: int, b: int) {
    match operator
    case "=" => a == b
    case "!=" => a != b
    case ">" => a > b
    case "<" => a < b
    case ">=" => a >= b
    case "<=" => a <= b
    case _ => false
  }

  /** The filter compares the field of the entry with its value as the operator of the entry asks: eq for equal, ne for
      different, gt for greater, lt for less, gte for at least, lte for at most, and no other operator. */
  ghost predicate AsAsked(field: string, op: string, value: string, f: Filter) {
    && f.field == field && f.value == value && op in ["eq", "ne", "gt", "lt", "gte", "lte"]
    && (op == "eq" ==> forall a, b :: Compare(f.operator, a, b) <==> a == b)
    && (op == "ne" ==> forall a, b :: Compare(f.operator, a, b) <==> a != b)
    && (op == "gt" ==> forall a, b :: Compare(f.operator, a, b) <==> a > b)
    && (op == "lt" ==> forall a, b :: Compare(f.operator, a, b) <==> a < b)
    && (op == "gte" ==> forall a, b :: Compare(f.operator, a, b) <==> a >= b)
    && (op == "lte" ==> forall a, b :: Compare(f.operator, a, b) <==> a <= b)
  }

  /** Whichever way the entry is read, the filter does what it asks for. */
  ghost predicate Obeys(entry: string, f: Filter) {
    forall field, op, value :: ':' !in field && ':' !in op && entry == Encode(field, op, value) ==>
      AsAsked(field, op, value, f)
  }

  lemma OperatorCompares(field: string, op: string, value: string, f: Filter)
    requires f.field == field && f.value == value && SqlOperator(op) == Some(f.operator)
    ensures AsAsked(field, op, value, f)
  {
  }

  lemma DenotedObeys(entry: string, f: Filter)
    requires Denotes(entry, f)
    ensures Obeys(entry, f)
  {
    KnownNamesHaveNoColon();
    var op :| SqlOperator(op) == Some(f.operator) && entry == Encode(f.field, op, f.value);
    SplitEncoded(f.field, op, f.value);
    OperatorCompares(f.field, op, f.value, f);
    forall field, op', value | ':' !in field && ':' !in op' && entry == Encode(field, op', value)
      ensures AsAsked(field, op', value, f)
    {
      SplitEncoded(field, op', value);
      assert [field, op', value] == [f.field, op, f.value];
      assert field == [field, op', value][0] && op' == [field, op', value][1] && value == [field, op', value][2];
    }
  }

  // ---- The loop ---------------------------------------------------------------------------------

  /** The body of the loop over the filter strings. */
  method ResolveEntry(entry: string) returns (r: Result<Filter, FilterError>)
    ensures r.Success? ==> Denotes(entry, r.value)
    ensures r.Failure? ==> FaultOf(entry) == Some(r.error)
  {
    var parts := SplitN(entry, ':', 3);
    SplitParts(entry);
    if |parts| != 3 {
      return Failure(BadFormat(entry));
    }
    var field, op, value := parts[0], parts[1], parts[2];
    if !ValidField(field) {
      return Failure(UnknownField(field));
    }
    var sqlOp := SqlOperator(op);
    if sqlOp.None? {
      return Failure(UnknownOperator(op));
    }
    return Success(Filter(field, sqlOp.value, value));
  }

  /** resolveFilters succeeds exactly when every entry is field:op:value with a known field and operator, and then
      returns the filters in order, values untouched, each comparing as its entry asks; otherwise it names the first
      bad entry's fault. */
  method ResolveFilters(entries: seq<string>) returns (r: Result<seq<Filter>, FilterError>)
    ensures r.Success? <==> forall i :: 0 <= i < |entries| ==> Acceptable(entries[i])
    ensures r.Success? ==> Encodings(entries, r.value)
    ensures r.Success? ==> forall i :: 0 <= i < |entries| ==> Obeys(entries[i], r.value[i])
    ensures r.Failure? ==> exists i :: 0 <= i < |entries| && FirstFault(entries, i, r.error)
  {
    var filters: seq<Filter> := [];
    for i := 0 to |entries|
      invariant Encodings(entries[..i], filters)
      invariant forall k :: 0 <= k < i ==> Acceptable(entries[k])
    {
      var f := ResolveEntry(entries[i]);
      if f.Failure? {
        FaultMeaning(entries[i]);
        assert FirstFault(entries, i, f.error);
        return Failure(f.error);
      }
      filters := filters + [f.value];
    }
    assert entries[..|entries|] == entries;
    forall i | 0 <= i < |entries| ensures Obeys(entries[i], filters[i]) { DenotedObeys(entries[i], filters[i]); }
    return Success(filters);
  }

  function FaultOf(entry: string): Option<FilterError> {
    var parts := SplitN(entry, ':', 3);
    if |parts| != 3 then Some(BadFormat(entry))
    else if !ValidField(parts[0]) then Some(UnknownField(parts[0]))
    else if SqlOperator(parts[1]).None? then Some(UnknownOperator(parts[1]))
    else None
  }

  /** The error is that of entry i, and all entries before it are acceptable. */
  ghost predicate FirstFault(entries: seq<string>, i: nat, e: FilterError)
    requires i < |entries|
  {
    (forall k :: 0 <= k < i ==> Acceptable(entries[k])) && FaultOf(entries[i]) == Some(e)
  }

  /** An entry has a fault exactly when it denotes no filter. */
  lemma FaultMeaning(entry: string)
    ensures FaultOf(entry).Some? <==> !Acceptable(entry)
  {
    KnownNamesHaveNoColon();
    SplitParts(entry);
    var parts := SplitN(entry, ':', 3);
    if FaultOf(entry).None? {
      assert Denotes(entry, Filter(parts[0], SqlOperator(parts[1]).value, parts[2]));
    } else {
      forall f ensures !Denotes(entry, f) {
        if Denotes(entry, f) {
          var op :| SqlOperator(op) == Some(f.operator) && entry == Encode(f.field, op, f.value);
          SplitEncoded(f.field, op, f.value);
        }
      }
    }
  }

  // ---- The Python client ------------------------------------------------------------------------

  datatype Query = Query(protocol: Option<string>, srcIp: Option<string>, dstIp: Option<string>,
                         srcPort: Option<int>, dstPort: Option<int>,
                         minLength: Option<int>, maxLength: Option<int>, jobId: Option<string>)

  predicate Truthy(s: Option<string>) { s.Some? && s.value != "" }

  function TextFilters(field: string, s: Option<string>): seq<Filter> {
    if Truthy(s) then [Filter(field, "=", s.value)] else []
  }

  function NumberFilters(field: string, operator: string, n: Option<int>): seq<Filter> {
    if n.Some? then [Filter(field, operator, FormatInt(n.value))] else []
  }

  /** The filters on addresses and ports. */
  function IntendedEnds(q: Query): seq<Filter> {
    TextFilters("protocol", q.protocol) + TextFilters("src_ip", q.srcIp) + TextFilters("dst_ip", q.dstIp)
    + NumberFilters("src_port", "=", q.srcPort) + NumberFilters("dst_port", "=", q.dstPort)
  }

  /** The filters the arguments of query_packets stand for. */
  function Intended(q: Query): seq<Filter> {
    IntendedEnds(q) + NumberFilters("length", ">=", q.minLength) + NumberFilters("length", "<=", q.maxLength)
        + TextFilters("job_id", q.jobId)
  }

  lemma EncodingsExtend(entries: seq<string>, filters: seq<Filter>, field: string, op: string, value: string)
    requires Encodings(entries, filters) && ValidField(field) && SqlOperator(op).Some?
    ensures Encodings(entries + [Encode(field, op, value)], filters + [Filter(field, SqlOperator(op).value, value)])
  {
    assert Denotes(Encode(field, op, value), Filter(field, SqlOperator(op).value, value));
  }

  /** The entries for arguments that are given: an empty text counts as absent. */
  function TextEntry(field: string, s: Option<string>): seq<string> {
    if s == None || s == Some("") then [] else [field + ":eq:" + s.value]
  }

  function NumberEntry(field: string, op: string, n: Option<int>): seq<string> {
    if n == None then [] else [field + ":" + op + ":" + FormatInt(n.value)]
  }

  method AppendText(filters: seq<string>, ghost want: seq<Filter>, field: string, s: Option<string>)
      returns (r: seq<string>)
    requires Encodings(filters, want) && ValidField(field)
    ensures Encodings(r, want + TextFilters(field, s))
    ensures r == filters + TextEntry(field, s)
  {
    r := filters;
    if Truthy(s) {
      EncodingsExtend(filters, want, field, "eq", s.value);
      assert Encode(field, "eq", s.value) == field + ":eq:" + s.value;
      r := filters + [Encode(field, "eq", s.value)];
    }
  }

  method AppendNumber(filters: seq<string>, ghost want: seq<Filter>, field: string, op: string, n: Option<int>)
    returns (r: seq<string>)
    requires Encodings(filters, want) && ValidField(field) && SqlOperator(op).Some?
    ensures Encodings(r, want + NumberFilters(field, SqlOperator(op).value, n))
    ensures r == filters + NumberEntry(field, op, n)
  {
    r := filters;
    if n.Some? {
      EncodingsExtend(filters, want, field, op, FormatInt(n.value));
      r := filters + [Encode(field, op, FormatInt(n.value))];
    }
  }

  /** The filter list of query_packets has one entry for each argument that is given, in order, and encodes exactly the
      intended filters. */
  method QueryPacketsFilters(q: Query) returns (filters: seq<string>)
    ensures Encodings(filters, Intended(q))
    ensures filters == EndEntries(q) + NumberEntry("length", "gte", q.minLength)
      + NumberEntry("length", "lte", q.maxLength) + TextEntry("job_id", q.jobId)
  {
    filters := EndFilters(q);
    ghost var want := IntendedEnds(q);
    filters := AppendNumber(filters, want, "length", "gte", q.minLength);
    want := want + NumberFilters("length", ">=", q.minLength);
    filters := AppendNumber(filters, want, "length", "lte", q.maxLength);
    want := want + NumberFilters("length", "<=", q.maxLength);
    filters := AppendText(filters, want, "job_id", q.jobId);
  }

  /** The entries for addresses and ports. */
  function EndEntries(q: Query): seq<string> {
    TextEntry("protocol", q.protocol) + TextEntry("src_ip", q.srcIp) + TextEntry("dst_ip", q.dstIp)
    + NumberEntry("src_port", "eq", q.srcPort) + NumberEntry("dst_port", "eq", q.dstPort)
  }

  method EndFilters(q: Query) returns (filters: seq<string>)
    ensures Encodings(filters, IntendedEnds(q))
    ensures filters == EndEntries(q)
  {
    ghost var want := TextFilters("protocol", q.protocol);
    filters := AppendText([], [], "protocol", q.protocol);
    assert [] + want == want;
    filters := AppendText(filters, want, "src_ip", q.srcIp);
    want := want + TextFilters("src_ip", q.srcIp);
    filters := AppendText(filters, want, "dst_ip", q.dstIp);
    want := want + TextFilters("dst_ip", q.dstIp);
    filters := AppendNumber(filters, want, "src_port", "eq", q.srcPort);
    want := want + NumberFilters("src_port", "=", q.srcPort);
    filters := AppendNumber(filters, want, "dst_port", "eq", q.dstPort);
  }

  /** Client and server agree: any list that encodes given filters can only be decoded to them, so what
      query_packets sends is accepted and resolves to exactly the intended filters. */
  lemma CodecAgrees(entries: seq<string>, sent: seq<Filter>, decoded: seq<Filter>)
    requires Encodings(entries, sent) && Encodings(entries, decoded)
    ensures decoded == sent
  {
    forall i | 0 <= i < |entries| ensures decoded[i] == sent[i] {
      DenotesUnique(entries[i], decoded[i], sent[i]);
    }
  }

  /** The client's request, end to end. */
  method ClientToServer(q: Query) returns (r: Result<seq<Filter>, FilterError>)
    ensures r == Success(Intended(q))
  {
    var entries := QueryPacketsFilters(q);
    r := ResolveFilters(entries);
    forall i | 0 <= i < |entries| ensures Acceptable(entries[i]) { assert Denotes(entries[i], Intended(q)[i]); }
    CodecAgrees(entries, Intended(q), r.value);
  }
}
