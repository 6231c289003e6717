/**
 The token bucket in front of the job routes, over real-valued tokens and seconds. A call of `Allow` reads
 the clock twice: once to measure the time since the last update, once to record the new update.
*/
module RateLimiter {

  /** The two clock readings of one call. */
  datatype Reading = Reading(since: real, now: real)

  function Min(a: real, b: real): real { if a <= b then a else b }

  class Bucket {
    var maxToken: real
    var currentToken: real
    var rateLimit: real
    var lastUpdate: real

    constructor (maxToken: real, rateLimit: real, now: real)
      ensures this.maxToken == maxToken && this.currentToken == maxToken
      ensures this.rateLimit == rateLimit && this.lastUpdate == now
    {
      this.maxToken, this.currentToken, this.rateLimit, this.lastUpdate := maxToken, maxToken, rateLimit, now;
    }

    method Allow(clock: Reading) returns (admitted: bool)
      modifies this
      ensures maxToken == old(maxToken) && rateLimit == old(rateLimit) && lastUpdate == clock.now
      ensures var tokens := Min(maxToken, old(currentToken) + (clock.since - old(lastUpdate)) * rateLimit);
        admitted == (tokens >= 1.0) && currentToken == if admitted then tokens - 1.0 else tokens
    {
      currentToken := currentToken + (clock.since - lastUpdate) * rateLimit;
      lastUpdate := clock.now;
      if currentToken > maxToken {
        currentToken := maxToken;
      }
      if currentToken < 1.0 {
        return false;
      }
      currentToken := currentToken - 1.0;
      return true;
    }

    /** A trace of calls on one bucket makes the decisions of its meter. */
    method Serve(calls: seq<Reading>) returns (admitted: seq<bool>)
      modifies this
      ensures maxToken == old(maxToken) && rateLimit == old(rateLimit)
      ensures admitted == MeterOf(old(maxToken), old(rateLimit), old(currentToken), old(lastUpdate), calls).Decided()
    {
      admitted := [];
      ghost var rate, first, start := rateLimit, currentToken, lastUpdate;
      ghost var m := MeterOf(maxToken, rate, first, start, calls);
      for i := 0 to |calls|
        invariant maxToken == old(maxToken) && rateLimit == rate
        invariant admitted == m.Decided()[..i]
        invariant currentToken == m.Held(i)
        invariant lastUpdate == LastUpdate(start, calls, i)
      {
        CallDecided(maxToken, rate, first, start, calls, i);
        var ok := Allow(calls[i]);
        admitted := admitted + [ok];
      }
    }
  }

  // ---- The bucket over a trace ------------------------------------------------------------------

  /** How many calls are admitted. */
  function Admitted(ds: seq<bool>): nat {
    if ds == [] then 0 else Admitted(ds[..|ds| - 1]) + (if ds[|ds| - 1] then 1 else 0)
  }

  lemma AdmittedNext(ds: seq<bool>, i: nat)
    requires i < |ds|
    ensures Admitted(ds[..i + 1]) == Admitted(ds[..i]) + (if ds[i] then 1 else 0)
  {
    assert ds[..i + 1][..i] == ds[..i];
  }

  /** A trace with the clock measured in tokens, that is, in rate * seconds. */
  datatype Meter = Meter(max: real, first: real, start: real, since: seq<real>, now: seq<real>) {
    /** A full bucket and a clock that never goes backwards. */
    predicate Valid() {
      && |since| == |now| && first == max
      && (forall i :: 0 <= i < |since| ==> start <= since[i] <= now[i])
      && (forall i, j :: 0 <= i < j < |since| ==> now[i] <= since[j])
    }

    /** The tokens when call i is decided. */
    function Level(i: nat): real
      requires i < |since| == |now|
      decreases i, 0
    {
      if i == 0 then Min(max, first + since[0] - start) else Min(max, Remaining(i - 1) + since[i] - now[i - 1])
    }

    /** The tokens after call i. */
    function Remaining(i: nat): real
      requires i < |since| == |now|
      decreases i, 1
    {
      if Level(i) >= 1.0 then Level(i) - 1.0 else Level(i)
    }

    /** The tokens before call i, and after all calls when i is their number. */
    function Held(i: nat): real
      requires i <= |since| == |now|
    {
      if i == 0 then first else Remaining(i - 1)
    }

    function Decided(): (ds: seq<bool>)
      requires |since| == |now|
    {
      seq(|since|, i requires 0 <= i < |since| => Level(i) >= 1.0)
    }
  }

  function MeterOf(max: real, rate: real, first: real, start: real, calls: seq<Reading>): (m: Meter)
    ensures |m.since| == |m.now| == |calls|
  {
    Meter(max, first, Credit(rate, start), seq(|calls|, i requires 0 <= i < |calls| => Credit(rate, calls[i].since)),
          seq(|calls|, i requires 0 <= i < |calls| => Credit(rate, calls[i].now)))
  }

  function LastUpdate(start: real, calls: seq<Reading>, i: nat): real
    requires i <= |calls|
  {
    if i == 0 then start else calls[i - 1].now
  }

  /** What one call of `Allow` does to the tokens is what the meter does. */
  lemma CallDecided(max: real, rate: real, first: real, start: real, calls: seq<Reading>, i: nat)
    requires i < |calls|
    ensures var m := MeterOf(max, rate, first, start, calls);
      var tokens := Min(max, m.Held(i) + (calls[i].since - LastUpdate(start, calls, i)) * rate);
      && m.Held(i + 1) == (if tokens >= 1.0 then tokens - 1.0 else tokens)
      && m.Decided()[..i + 1] == m.Decided()[..i] + [tokens >= 1.0]
  {
    var m := MeterOf(max, rate, first, start, calls);
    CreditOfGap(rate, LastUpdate(start, calls, i), calls[i].since);
    assert m.since[i] == Credit(rate, calls[i].since);
    if i > 0 { assert m.now[i - 1] == Credit(rate, calls[i - 1].now); }
    assert m.Decided()[i] == (m.Level(i) >= 1.0);
  }

  /** The tokens that `seconds` are worth. */
  function Credit(rate: real, seconds: real): real { rate * seconds }

  lemma CreditOfGap(rate: real, a: real, b: real)
    ensures (b - a) * rate == Credit(rate, b) - Credit(rate, a)
  {
  }

  lemma CreditGrows(rate: real, a: real, b: real)
    requires rate >= 0.0 && a <= b
    ensures Credit(rate, a) <= Credit(rate, b)
  {
    assert rate * (b - a) >= 0.0;
  }

  /** Admissions from call j up to, but not including, call i. */
  function Between(ds: seq<bool>, j: nat, i: nat): int
    requires j <= i <= |ds|
  {
    Admitted(ds[..i]) - Admitted(ds[..j])
  }

  /** The level never exceeds what any window starting at an earlier call leaves. */
  lemma {:induction false} LevelBounded(m: Meter, j: nat, i: nat)
    requires m.Valid() && j <= i < |m.since|
    ensures m.Level(i) <= m.max + m.since[i] - m.since[j] - Between(m.Decided(), j, i) as real
  {
    if j == i {
    } else {
      LevelBounded(m, j, i - 1);
      AdmittedNext(m.Decided(), i - 1);
    }
  }

  lemma {:induction false} LevelInRange(m: Meter, i: nat)
    requires m.Valid() && m.max >= 0.0 && i < |m.since|
    ensures 0.0 <= m.Level(i) <= m.max
  {
    if i == 0 {
    } else {
      LevelInRange(m, i - 1);
    }
  }

  /** With one reading per call some window attains the bound: the clipped recursion is a minimum over windows. */
  lemma {:induction false} LevelAttained(m: Meter, i: nat) returns (j: nat)
    requires m.Valid() && m.since == m.now && i < |m.since|
    ensures j <= i && m.Level(i) == m.max + m.since[i] - m.since[j] - Between(m.Decided(), j, i) as real
  {
    j := i;
    if i > 0 && m.Level(i) != m.max {
      j := LevelAttained(m, i - 1);
      AdmittedNext(m.Decided(), i - 1);
    }
  }

  /** The window from call j to call i has room for one more admission under the decisions `ds`. */
  predicate Room(m: Meter, ds: seq<bool>, j: nat, i: nat)
    requires j <= i < |m.now| && |ds| == |m.now|
  {
    Between(ds, j, i) as real + 1.0 <= m.max + m.now[i] - m.now[j]
  }

  lemma RoomIsExact(m: Meter, i: nat)
    requires m.Valid() && m.since == m.now && i < |m.since|
    ensures m.Decided()[i] <==> forall j :: 0 <= j <= i ==> Room(m, m.Decided(), j, i)
  {
    forall j | 0 <= j <= i && m.Decided()[i]
      ensures Room(m, m.Decided(), j, i)
    {
      LevelBounded(m, j, i);
    }
    var k := LevelAttained(m, i);
    assert Room(m, m.Decided(), k, i) ==> m.Level(i) >= 1.0;
  }

  /** A policy that admits a call only when every window has room for it. */
  predicate Conforms(m: Meter, es: seq<bool>) {
    && |es| == |m.now|
    && forall i, j :: 0 <= j <= i < |es| && es[i] ==> Room(m, es, j, i)
  }

  lemma {:induction false} NoPolicyAdmitsMore(m: Meter, es: seq<bool>, n: nat)
    requires m.Valid() && m.since == m.now && Conforms(m, es) && n <= |es|
    ensures forall k :: 0 <= k <= n ==> Admitted(es[..k]) <= Admitted(m.Decided()[..k])
  {
    if n == 0 {
    } else {
      var ds, i := m.Decided(), n - 1;
      NoPolicyAdmitsMore(m, es, i);
      AdmittedNext(es, i);
      AdmittedNext(ds, i);
      RoomIsExact(m, i);
      if es[i] && !ds[i] {
        var j :| 0 <= j <= i && !Room(m, ds, j, i);
        assert Room(m, es, j, i);
        assert Admitted(es[..j]) <= Admitted(ds[..j]);
      }
    }
  }

  // ---- Statements in seconds --------------------------------------------------------------------

  /** The rate is not negative and the clock never goes backwards. */
  predicate Steady(rate: real, start: real, calls: seq<Reading>) {
    && rate >= 0.0
    && (forall i :: 0 <= i < |calls| ==> start <= calls[i].since <= calls[i].now)
    && (forall i, j :: 0 <= i < j < |calls| ==> calls[i].now <= calls[j].since)
  }

  predicate OneReading(calls: seq<Reading>) {
    forall i :: 0 <= i < |calls| ==> calls[i].since == calls[i].now
  }

  lemma SteadyMeter(max: real, rate: real, start: real, calls: seq<Reading>)
    requires Steady(rate, start, calls)
    ensures MeterOf(max, rate, max, start, calls).Valid()
    ensures OneReading(calls) ==>
        MeterOf(max, rate, max, start, calls).since == MeterOf(max, rate, max, start, calls).now
  {
    forall i | 0 <= i < |calls|
      ensures Credit(rate, start) <= Credit(rate, calls[i].since) <= Credit(rate, calls[i].now)
    {
      CreditGrows(rate, start, calls[i].since);
      CreditGrows(rate, calls[i].since, calls[i].now);
    }
    forall i, j | 0 <= i < j < |calls|
      ensures Credit(rate, calls[i].now) <= Credit(rate, calls[j].since)
    {
      CreditGrows(rate, calls[i].now, calls[j].since);
    }
  }

  /** The decisions of a bucket created full at `start`. */
  function Decisions(max: real, rate: real, start: real, calls: seq<Reading>): (ds: seq<bool>)
    ensures |ds| == |calls|
  {
    MeterOf(max, rate, max, start, calls).Decided()
  }

  /** Room in seconds: the admissions since call j plus one are within max + rate * elapsed. */
  predicate Fits(max: real, rate: real, calls: seq<Reading>, ds: seq<bool>, j: nat, i: nat)
    requires j <= i < |calls| == |ds|
  {
    Between(ds, j, i) as real + 1.0 <= max + (calls[i].now - calls[j].now) * rate
  }

  lemma FitsIsRoom(max: real, rate: real, start: real, calls: seq<Reading>, ds: seq<bool>, j: nat, i: nat)
    requires rate >= 0.0 && j <= i < |calls| == |ds|
    ensures Fits(max, rate, calls, ds, j, i) <==> Room(MeterOf(max, rate, max, start, calls), ds, j, i)
  {
    CreditOfGap(rate, calls[j].now, calls[i].now);
  }

  /** Exactness, with one clock reading per call and a rate that is not negative: over every trace a call is
      admitted if and only if, for every call up to and including it, the number admitted since that call
      plus one is at most max + rate * elapsed. */
  lemma AllowIsExact(max: real, rate: real, start: real, calls: seq<Reading>, i: nat)
    requires Steady(rate, start, calls) && OneReading(calls) && i < |calls|
    ensures var ds := Decisions(max, rate, start, calls); ds[i] <==> forall j :: 0 <= j <= i ==>
        Fits(max, rate, calls, ds, j, i)
  {
    var m, ds := MeterOf(max, rate, max, start, calls), Decisions(max, rate, start, calls);
    SteadyMeter(max, rate, start, calls);
    RoomIsExact(m, i);
    forall j | 0 <= j <= i ensures Fits(max, rate, calls, ds, j, i) <==> Room(m, ds, j, i) {
      FitsIsRoom(max, rate, start, calls, ds, j, i);
    }
  }

  /** The bucket is the greedy maximal policy: it keeps every window within its bound, and no policy that does has
      admitted more calls at any point of the trace. */
  lemma BucketIsMaximal(max: real, rate: real, start: real, calls: seq<Reading>, es: seq<bool>)
    requires Steady(rate, start, calls) && OneReading(calls) && |es| == |calls|
    requires forall i, j :: 0 <= j <= i < |calls| && es[i] ==> Fits(max, rate, calls, es, j, i)
    ensures var ds := Decisions(max, rate, start, calls);
      && (forall i, j :: 0 <= j <= i < |calls| && ds[i] ==> Fits(max, rate, calls, ds, j, i))
      && (forall n :: 0 <= n <= |calls| ==> Admitted(es[..n]) <= Admitted(ds[..n]))
  {
    var m, ds := MeterOf(max, rate, max, start, calls), Decisions(max, rate, start, calls);
    SteadyMeter(max, rate, start, calls);
    forall i, j | 0 <= j <= i < |calls| && es[i] ensures Room(m, es, j, i) {
      FitsIsRoom(max, rate, start, calls, es, j, i);
    }
    NoPolicyAdmitsMore(m, es, |es|);
    forall i, j | 0 <= j <= i < |calls| && ds[i] ensures Fits(max, rate, calls, ds, j, i) {
      AllowIsExact(max, rate, start, calls, i);
    }
  }

  /** With the two readings the code makes: tokens stay between 0 and the maximum, and any window between two
      calls admits at most max + rate * elapsed. */
  lemma WindowBound(max: real, rate: real, start: real, calls: seq<Reading>, j: nat, i: nat)
    requires Steady(rate, start, calls) && max >= 0.0 && j <= i < |calls|
    ensures Between(Decisions(max, rate, start, calls), j, i + 1) as real <= max
        + (calls[i].since - calls[j].since) * rate
    ensures var m := MeterOf(max, rate, max, start, calls); 0.0 <= m.Remaining(i) <= m.Level(i) <= max
  {
    var m, ds := MeterOf(max, rate, max, start, calls), Decisions(max, rate, start, calls);
    SteadyMeter(max, rate, start, calls);
    LevelBounded(m, j, i);
    LevelInRange(m, i);
    AdmittedNext(ds, i);
    CreditOfGap(rate, calls[j].since, calls[i].since);
  }
}
