/** The string operations of the query layer: splitting, joining and decimal numbers. */
module Text {
  import opened Wrappers

  /** Everything before the first separator. */
  function Before(s: string, sep: char): string {
    if s == [] || s[0] == sep then [] else [s[0]] + Before(s[1..], sep)
  }

  /** strings.SplitN for a one-character separator: at most n parts, the last one unsplit. */
  function SplitN(s: string, sep: char, n: nat): seq<string>
    requires n >= 1
    decreases n
  {
    if n == 1 || sep !in s then [s]
    else
      var head := Before(s, sep);
      if |head| < |s| then [head] + SplitN(s[|head| + 1..], sep, n - 1) else [s]
  }

  /** strings.Split for a one-character separator. */
  function Split(s: string, sep: char): (parts: seq<string>)
    ensures parts != []
    decreases |s|
  {
    var head := Before(s, sep);
    if |head| < |s| then [head] + Split(s[|head| + 1..], sep) else [s]
  }

  function Join(parts: seq<string>, sep: string): string {
    if parts == [] then "" else if |parts| == 1 then parts[0] else parts[0] + sep + Join(parts[1..], sep)
  }

  lemma {:induction false} BeforeProperties(s: string, sep: char)
    ensures |Before(s, sep)| <= |s| && Before(s, sep) == s[..|Before(s, sep)|] && sep !in Before(s, sep)
    ensures |Before(s, sep)| < |s| ==> s[|Before(s, sep)|] == sep
    ensures sep in s <==> |Before(s, sep)| < |s|
  {
    if s != [] && s[0] != sep {
      BeforeProperties(s[1..], sep);
      assert s == [s[0]] + s[1..];
    }
  }

  /** Cutting a word off a longer text. */
  lemma {:induction false} BeforeWord(w: string, sep: char, rest: string)
    requires sep !in w
    ensures Before(w, sep) == w
    ensures Before(w + [sep] + rest, sep) == w
  {
    if w == [] {
    } else {
      assert w == [w[0]] + w[1..];
      BeforeWord(w[1..], sep, rest);
      assert (w + [sep] + rest)[1..] == w[1..] + [sep] + rest;
    }
  }

  /** Splitting undoes joining when no part contains the separator. */
  lemma {:induction false} SplitJoin(parts: seq<string>, sep: char)
    requires parts != [] && forall i :: 0 <= i < |parts| ==> sep !in parts[i]
    ensures Split(Join(parts, [sep]), sep) == parts
  {
    if |parts| == 1 {
      BeforeWord(parts[0], sep, "");
    } else {
      var rest := Join(parts[1..], [sep]);
      BeforeWord(parts[0], sep, rest);
      assert (parts[0] + [sep] + rest)[|parts[0]| + 1..] == rest;
      SplitJoin(parts[1..], sep);
    }
  }

  /** Joining undoes splitting. */
  lemma {:induction false} JoinSplit(s: string, sep: char)
    ensures Join(Split(s, sep), [sep]) == s
    ensures forall i :: 0 <= i < |Split(s, sep)| ==> sep !in Split(s, sep)[i]
    decreases |s|
  {
    BeforeProperties(s, sep);
    var head := Before(s, sep);
    if |head| < |s| {
      JoinSplit(s[|head| + 1..], sep);
      assert Split(s, sep)[1..] == Split(s[|head| + 1..], sep);
      assert s == head + [sep] + s[|head| + 1..];
    }
  }

  // ---- Decimal numbers --------------------------------------------------------------------------

  function Decimal(n: nat): (s: string)
    ensures s != ""
  {
    if n < 10 then ["0123456789"[n]] else Decimal(n / 10) + ["0123456789"[n % 10]]
  }

  function FormatInt(n: int): string { if n < 0 then "-" + Decimal(-n) else Decimal(n) }

  predicate IsDigit(c: char) { '0' <= c <= '9' }

  function DigitValue(c: char): nat
    requires IsDigit(c)
  {
    (c as int) - 48
  }

  function ParseNat(s: string): Option<nat> {
    if s == "" then None
    else
      var c := s[|s| - 1];
      if !IsDigit(c) then None
      else if |s| == 1 then Some(DigitValue(c))
      else
        var high := ParseNat(s[..|s| - 1]);
        if high.None? then None else Some(high.value * 10 + DigitValue(c))
  }

  lemma {:induction false} DecimalRoundTrip(n: nat)
    ensures ParseNat(Decimal(n)) == Some(n)
    ensures forall i :: 0 <= i < |Decimal(n)| ==> IsDigit(Decimal(n)[i])
  {
    if n >= 10 {
      DecimalRoundTrip(n / 10);
      var s := Decimal(n);
      assert s[..|s| - 1] == Decimal(n / 10);
    }
  }

  const MAX_INT: int := 0x7fff_ffff_ffff_ffff

  /** strconv.Atoi on 64 bits: an optional sign, digits, and a value in range. */
  function Atoi(s: string): Option<int> {
    var negative := s != "" && s[0] == '-';
    var digits := if s != "" && (s[0] == '-' || s[0] == '+') then s[1..] else s;
    var magnitude := ParseNat(digits);
    if magnitude.None? then None
    else
      var m: int := magnitude.value;
      var n := if negative then -m else m;
      if -MAX_INT - 1 <= n <= MAX_INT then Some(n) else None
  }

  /** A positive number is printed without leading zeros. */
  lemma {:induction false} NoLeadingZero(n: nat)
    ensures n > 0 ==> Decimal(n)[0] != '0'
  {
    if n >= 10 { NoLeadingZero(n / 10); }
  }

  /** Exactly the non-empty strings of digits are read, and a leading zero changes nothing. */
  lemma {:induction false} ParseNatReads(s: string)
    ensures ParseNat(s).Some? <==> s != "" && forall i :: 0 <= i < |s| ==> '0' <= s[i] <= '9'
    ensures s != "" ==> ParseNat("0" + s) == ParseNat(s)
  {
    if s != "" {
      var high := s[..|s| - 1];
      ParseNatReads(high);
      assert s == high + [s[|s| - 1]];
      assert ("0" + s)[..|s|] == "0" + high;
      assert high == "" ==> "0" + high == "0";
    }
  }

  /** What strconv.Atoi reads is digits after an optional sign, and a plus sign changes nothing. */
  lemma AtoiReads(s: string)
    ensures Atoi(s).Some? ==>
      && s != "" && (s[0] == '-' || s[0] == '+' ==> |s| > 1) && (s[0] == '-' || s[0] == '+' || IsDigit(s[0]))
      && forall i :: 1 <= i < |s| ==> IsDigit(s[i])
    ensures s != "" && IsDigit(s[0]) ==> Atoi("+" + s) == Atoi(s)
  {
    assert ("+" + s)[1..] == s;
    ParseNatReads(s);
    if s != "" {
      ParseNatReads(s[1..]);
      forall i | 1 <= i < |s| ensures s[i] == s[1..][i - 1] { }
    }
  }

  /** strconv.Atoi reads a 64-bit number back from its text, and refuses every other number's. */
  lemma AtoiFormat(n: int)
    ensures Atoi(FormatInt(n)) ==
      if -0x8000_0000_0000_0000 <= n <= 0x7fff_ffff_ffff_ffff then Some(n) else None
  {
    var digits := Decimal(if n < 0 then -n else n);
    DecimalRoundTrip(if n < 0 then -n else n);
    assert IsDigit(digits[0]);
    assert ("-" + digits)[1..] == digits;
  }
}
