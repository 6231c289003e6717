/**
 Several jobs running at once over one source_files table: a checksum is accepted at most once over all
 of them, an accepted path is read at most once, and the progress column stays in range.
*/
module Jobs {
  import opened Capture
  import opened Aggregates
  import opened Pipeline
  import opened PipelineControl
  import opened PipelineFrames
  import opened PipelinePaths
  import opened PipelineRows
  import opened PipelineOutcome

  // ---- An accepted path is taken by at most one reader ------------------------------------------

  /** How often a reader receives the path in a run. */
  function Takes(run: seq<Action>, p: Path): nat {
    if run == [] then 0 else (if run[0].Read? && run[0].r == TakeValid(p) then 1 else 0) + Takes(run[1..], p)
  }

  /** Acceptances of the path that no longer wait for a reader. */
  function Released(s: State, p: Path): int {
    Occ(s.hist.accepted, p) - Occ(s.valid.buf, p) - Sendings(s.checkers, p)
  }

  lemma CheckerReleases(c: Config, s: State, w: nat, l: CheckLabel, p: Path)
    requires Enabled(c, s, Check(w, l))
    ensures Released(Apply(c, s, Check(w, l)), p) >= Released(s, p)
  {
    var k := s.checkers[w];
    SumUpdate(s.checkers, w, CheckerNext(c, k, l), e => Sending(e, p));
    match l
    case Inserted => OccConcat(s.hist.accepted, [k.path], p);
    case Handed => OccConcat(s.valid.buf, [k.path], p);
    case _ =>
  }

  lemma ReaderReleases(c: Config, s: State, w: nat, l: ReadLabel, p: Path)
    requires Enabled(c, s, Read(w, l))
    ensures Released(Apply(c, s, Read(w, l)), p) >= Released(s, p) + (if l == TakeValid(p) then 1 else 0)
  {
  }

  lemma OthersRelease(c: Config, s: State, a: Action, p: Path)
    requires Enabled(c, s, a) && !a.Check? && !a.Read?
    ensures Released(Apply(c, s, a), p) == Released(s, p)
  {
    match a
    case Save(w, l) => SaveFrame(c, s, w, l);
    case Main(l) => MainFrame(c, s, l);
    case _ => OutsideFrame(c, s, a);
  }

  lemma {:induction false} TakesBounded(c: Config, s: State, run: seq<Action>, p: Path)
    requires Legal(c, s, run)
    ensures Takes(run, p) + Released(s, p) <= Released(After(c, s, run), p)
    decreases |run|
  {
    if run == [] {
    } else {
      if run[0].Check? {
        CheckerReleases(c, s, run[0].w, run[0].c, p);
      } else if run[0].Read? {
        ReaderReleases(c, s, run[0].w, run[0].r, p);
      } else {
        OthersRelease(c, s, run[0], p);
      }
      TakesBounded(c, Apply(c, s, run[0]), run[1..], p);
    }
  }

  /** No path is taken by readers more often than it was accepted. */
  lemma TakenOnlyIfAccepted(c: Config, seen: set<string>, run: seq<Action>, p: Path)
    requires Legal(c, Init(c, seen), run)
    ensures Takes(run, p) <= Occ(After(c, Init(c, seen), run).hist.accepted, p)
  {
    var ks := Init(c, seen).checkers;
    SumConstant(ks, 0, e => Sending(e, p));
    TakesBounded(c, Init(c, seen), run, p);
  }

  // ---- Concurrent jobs --------------------------------------------------------------------------

  /** The jobs running side by side. Each has its own channels and workers; the checksums are shared. */
  datatype World = World(configs: seq<Config>, jobs: seq<State>)

  datatype Move = Move(job: nat, a: Action)

  predicate WellFormed(w: World) {
    |w.configs| == |w.jobs|
  }

  function Start(configs: seq<Config>, seen: set<string>): World {
    World(configs, seq(|configs|, i requires 0 <= i < |configs| => Init(configs[i], seen)))
  }

  predicate CanMove(w: World, m: Move)
    requires WellFormed(w)
  {
    m.job < |w.jobs| && !m.a.OtherInserts? && Enabled(w.configs[m.job], w.jobs[m.job], m.a)
  }

  /** The checksum the action adds to source_files. */
  function Added(c: Config, s: State, a: Action): set<string>
    requires Enabled(c, s, a)
  {
    match a
    case Check(k, Inserted) => {c.disk(s.checkers[k].path).checksum}
    case _ => {}
  }

  /** The other jobs find the added checksum in the shared table. */
  function Hear(s: State, added: set<string>): State { s.(seen := s.seen + added) }

  function MoveTo(w: World, m: Move): World
    requires WellFormed(w) && CanMove(w, m)
  {
    var c, s := w.configs[m.job], w.jobs[m.job];
    World(w.configs, seq(|w.jobs|, j requires 0 <= j < |w.jobs| =>
      if j == m.job then Apply(c, s, m.a) else Hear(w.jobs[j], Added(c, s, m.a))))
  }

  predicate WorldLegal(w: World, moves: seq<Move>)
    requires WellFormed(w)
    decreases |moves|
  {
    moves == [] || (CanMove(w, moves[0]) && WorldLegal(MoveTo(w, moves[0]), moves[1..]))
  }

  function WorldAfter(w: World, moves: seq<Move>): (t: World)
    requires WellFormed(w) && WorldLegal(w, moves)
    ensures WellFormed(t) && t.configs == w.configs
    decreases |moves|
  {
    if moves == [] then w else WorldAfter(MoveTo(w, moves[0]), moves[1..])
  }

  /** What job i does and hears in a run of the world. */
  function Projection(w: World, moves: seq<Move>, i: nat): seq<Action>
    requires WellFormed(w) && WorldLegal(w, moves)
    decreases |moves|
  {
    if moves == [] then []
    else
      var m := moves[0];
      var added := Added(w.configs[m.job], w.jobs[m.job], m.a);
      (if m.job == i then [m.a]
       else if added == {} then []
       else [OtherInserts(w.configs[m.job].disk(w.jobs[m.job].checkers[m.a.w].path).checksum)])
      + Projection(MoveTo(w, m), moves[1..], i)
  }

  lemma {:induction false} LegalConcat(c: Config, s: State, a: Action, run: seq<Action>)
    requires Enabled(c, s, a) && Legal(c, Apply(c, s, a), run)
    ensures Legal(c, s, [a] + run) && After(c, s, [a] + run) == After(c, Apply(c, s, a), run)
  {
    assert ([a] + run)[1..] == run;
  }

  /** Every job of the world runs as a single pipeline whose environment is the other jobs, so everything
      proved of one pipeline holds of each. */
  lemma {:induction false} ProjectionIsRun(w: World, moves: seq<Move>, i: nat)
    requires WellFormed(w) && WorldLegal(w, moves) && i < |w.jobs|
    ensures Legal(w.configs[i], w.jobs[i], Projection(w, moves, i))
    ensures After(w.configs[i], w.jobs[i], Projection(w, moves, i)) == WorldAfter(w, moves).jobs[i]
    decreases |moves|
  {
    if moves == [] {
    } else {
      var m := moves[0];
      var w' := MoveTo(w, m);
      ProjectionIsRun(w', moves[1..], i);
      var added := Added(w.configs[m.job], w.jobs[m.job], m.a);
      var rest := Projection(w', moves[1..], i);
      if m.job == i {
        LegalConcat(w.configs[i], w.jobs[i], m.a, rest);
      } else if added == {} {
        assert w.jobs[i].seen + added == w.jobs[i].seen;
        assert w'.jobs[i] == w.jobs[i];
        assert [] + rest == rest;
      } else {
        var sum := w.configs[m.job].disk(w.jobs[m.job].checkers[m.a.w].path).checksum;
        assert w'.jobs[i] == Apply(w.configs[i], w.jobs[i], OtherInserts(sum));
        LegalConcat(w.configs[i], w.jobs[i], OtherInserts(sum), rest);
      }
    }
  }

  // ---- At most one path per checksum ------------------------------------------------------------

  function SumOf(w: World, i: nat, k: nat): string
    requires WellFormed(w) && i < |w.jobs| && k < |w.jobs[i].hist.accepted|
  {
    w.configs[i].disk(w.jobs[i].hist.accepted[k]).checksum
  }

  /** All jobs see the same checksums, those known at the start and each accepted file's among them; no accepted
      file's was known at the start, and no two acceptances share one. */
  predicate OncePerChecksum(w: World, start: set<string>) {
    && WellFormed(w)
    && (forall i :: 0 <= i < |w.jobs| ==> start <= w.jobs[i].seen)
    && (forall i, k :: 0 <= i < |w.jobs| && 0 <= k < |w.jobs[i].hist.accepted| ==> SumOf(w, i, k) !in start)
    && (forall i, j :: 0 <= i < |w.jobs| && 0 <= j < |w.jobs| ==> w.jobs[i].seen == w.jobs[j].seen)
    && (forall i, k :: 0 <= i < |w.jobs| && 0 <= k < |w.jobs[i].hist.accepted| ==> SumOf(w, i, k) in w.jobs[i].seen)
    && (forall i, k, j, l ::
          (0 <= i < |w.jobs| && 0 <= k < |w.jobs[i].hist.accepted| && 0 <= j < |w.jobs|
              && 0 <= l < |w.jobs[j].hist.accepted|
           && SumOf(w, i, k) == SumOf(w, j, l)) ==> i == j && k == l)
  }

  /** Only an insert extends the accepted paths, and only by a checksum not seen before. */
  lemma AcceptStep(c: Config, s: State, a: Action)
    requires Enabled(c, s, a) && !a.OtherInserts?
    ensures var t := Apply(c, s, a);
      && t.seen == s.seen + Added(c, s, a)
      && (if Added(c, s, a) == {} then t.hist.accepted == s.hist.accepted
          else t.hist.accepted == s.hist.accepted + [s.checkers[a.w].path]
               && Added(c, s, a) == {c.disk(s.checkers[a.w].path).checksum} && Added(c, s, a) !! s.seen)
  {
    match a
    case Check(w, l) => CheckFrame(c, s, w, l);
    case Read(w, l) => ReadFrame(c, s, w, l);
    case Save(w, l) => SaveFrame(c, s, w, l);
    case Main(l) => MainFrame(c, s, l);
    case _ => OutsideFrame(c, s, a);
  }

  lemma OnceKept(w: World, m: Move, start: set<string>)
    requires OncePerChecksum(w, start) && CanMove(w, m)
    ensures OncePerChecksum(MoveTo(w, m), start)
  {
    var c, s := w.configs[m.job], w.jobs[m.job];
    var t := MoveTo(w, m);
    AcceptStep(c, s, m.a);
    var added := Added(c, s, m.a);
    forall i | 0 <= i < |w.jobs|
      ensures t.jobs[i].seen == w.jobs[i].seen + added
      ensures i != m.job ==> t.jobs[i].hist == w.jobs[i].hist
    {
    }
    AddedOnce(w, t, m.job, added, start);
  }

  /** A move that records at most one new checksum, for one more acceptance of one job. */
  lemma AddedOnce(w: World, t: World, j: nat, added: set<string>, start: set<string>)
    requires OncePerChecksum(w, start) && WellFormed(t) && t.configs == w.configs && |t.jobs| == |w.jobs|
        && j < |w.jobs|
    requires forall i :: 0 <= i < |w.jobs| ==>
        t.jobs[i].seen == w.jobs[i].seen + added && (i != j ==> t.jobs[i].hist == w.jobs[i].hist)
    requires if added == {} then t.jobs[j].hist.accepted == w.jobs[j].hist.accepted
             else added !! w.jobs[j].seen && exists p :: t.jobs[j].hist.accepted == w.jobs[j].hist.accepted + [p]
                                                        && added == {w.configs[j].disk(p).checksum}
    ensures OncePerChecksum(t, start)
  {
    forall i, k | 0 <= i < |t.jobs| && 0 <= k < |t.jobs[i].hist.accepted|
      ensures k < |w.jobs[i].hist.accepted| ==> SumOf(t, i, k) == SumOf(w, i, k) && SumOf(t, i, k) in w.jobs[i].seen
      ensures k >= |w.jobs[i].hist.accepted| ==> i == j && k == |w.jobs[j].hist.accepted| && SumOf(t, i, k) in added
    {
    }
  }

  lemma {:induction false} OnceAlong(w: World, moves: seq<Move>, start: set<string>)
    requires OncePerChecksum(w, start) && WorldLegal(w, moves)
    ensures OncePerChecksum(WorldAfter(w, moves), start)
    decreases |moves|
  {
    if moves == [] {
    } else {
      OnceKept(w, moves[0], start);
      OnceAlong(MoveTo(w, moves[0]), moves[1..], start);
    }
  }

  lemma {:induction false} OccIsIndex(xs: seq<Path>, p: Path)
    requires forall k, l :: 0 <= k < |xs| && 0 <= l < |xs| && xs[k] == xs[l] ==> k == l
    ensures Occ(xs, p) == if p in xs then 1 else 0
  {
    if xs == [] {
    } else {
      var rest := xs[1..];
      forall k, l | 0 <= k < |rest| && 0 <= l < |rest| && rest[k] == rest[l]
        ensures k == l
      {
        assert rest[k] == xs[k + 1] && rest[l] == xs[l + 1];
      }
      OccIsIndex(rest, p);
      assert xs[0] !in rest by {
        forall k | 0 <= k < |rest| ensures rest[k] != xs[0] { assert rest[k] == xs[k + 1]; }
      }
    }
  }

  /** At most once, over any number of concurrent jobs and any interleaving, cancelled or not: no two accepted
      files, of whatever job, have the same checksum, none of them was known before, each is taken by at
      most one reader, and each job's table holds no row more often than its accepted files do. */
  lemma AtMostOnce(configs: seq<Config>, seen: set<string>, moves: seq<Move>)
    requires WorldLegal(Start(configs, seen), moves)
    ensures OncePerChecksum(WorldAfter(Start(configs, seen), moves), seen)
    ensures forall i, p :: 0 <= i < |configs| ==> Takes(Projection(Start(configs, seen), moves, i), p) <= 1
    ensures forall i :: 0 <= i < |configs| ==>
      var t := WorldAfter(Start(configs, seen), moves);
      multiset(t.jobs[i].job.table) <= multiset(AllRows(configs[i], t.jobs[i].hist.accepted))
  {
    var w := Start(configs, seen);
    OnceAlong(w, moves, seen);
    var t := WorldAfter(w, moves);
    forall i | 0 <= i < |configs|
      ensures multiset(t.jobs[i].job.table) <= multiset(AllRows(configs[i], t.jobs[i].hist.accepted))
      ensures forall p :: Takes(Projection(w, moves, i), p) <= 1
    {
      ProjectionIsRun(w, moves, i);
      var run := Projection(w, moves, i);
      assert Reachable(configs[i], seen, t.jobs[i]);
      TableWithinAccepted(configs[i], seen, t.jobs[i]);
      forall p ensures Takes(run, p) <= 1 {
        TakenOnlyIfAccepted(configs[i], seen, run, p);
        DistinctAccepted(t, i, seen);
        OccIsIndex(t.jobs[i].hist.accepted, p);
      }
    }
  }

  lemma DistinctAccepted(w: World, i: nat, start: set<string>)
    requires OncePerChecksum(w, start) && i < |w.jobs|
    ensures var xs := w.jobs[i].hist.accepted; forall k, l :: 0 <= k < |xs| && 0 <= l < |xs| && xs[k] == xs[l] ==>
        k == l
  {
    var xs := w.jobs[i].hist.accepted;
    forall k, l | 0 <= k < |xs| && 0 <= l < |xs| && xs[k] == xs[l]
      ensures k == l
    {
      assert SumOf(w, i, k) == SumOf(w, i, l);
    }
  }

  /** A checksum once accepted is never accepted again: no job of any world that starts with the checksums of an earlier
      one, or more, accepts a file with the checksum of a file the earlier one accepted, whatever became of that job. */
  lemma NeverAcceptedAgain(configs: seq<Config>, seen: set<string>, moves: seq<Move>, i: nat, k: nat,
                           later: seq<Config>, known: set<string>, more: seq<Move>, j: nat, l: nat)
    requires WorldLegal(Start(configs, seen), moves) && WorldLegal(Start(later, known), more)
    requires var t := WorldAfter(Start(configs, seen), moves);
      i < |t.jobs| && k < |t.jobs[i].hist.accepted| && t.jobs[i].seen <= known
    requires var u := WorldAfter(Start(later, known), more); j < |u.jobs| && l < |u.jobs[j].hist.accepted|
    ensures SumOf(WorldAfter(Start(configs, seen), moves), i, k) != SumOf(WorldAfter(Start(later, known), more), j, l)
  {
    AtMostOnce(configs, seen, moves);
    AtMostOnce(later, known, more);
  }

  /** No run of a pool accepts a file with a checksum that is known when it starts. */
  lemma {:induction false} KnownNotAccepted(c: Config, s: State, run: seq<Action>, sum: string)
    requires sum in s.seen && Legal(c, s, run)
    requires forall p :: p in s.hist.accepted ==> c.disk(p).checksum != sum
    ensures forall p :: p in After(c, s, run).hist.accepted ==> c.disk(p).checksum != sum
    decreases |run|
  {
    if run == [] {
    } else {
      if !run[0].OtherInserts? { AcceptStep(c, s, run[0]); }
      KnownNotAccepted(c, Apply(c, s, run[0]), run[1..], sum);
    }
  }

  lemma NothingNew(c: Config, known: set<string>, t: State)
    requires Reachable(c, known, t) && forall p :: c.disk(p).checksum in known
    ensures t.hist.accepted == []
  {
    var run :| Legal(c, Init(c, known), run) && After(c, Init(c, known), run) == t;
    if t.hist.accepted != [] {
      KnownNotAccepted(c, Init(c, known), run, c.disk(t.hist.accepted[0]).checksum);
    }
  }

  /** So rows lost to a cancelled job are lost for good: the small job can lose its only row to a failed copy, and
      then no run of the same job from the checksums it leaves behind ever has a row in its table. */
  lemma LostForGood() returns (run: seq<Action>)
    ensures Legal(Small(), Init(Small(), {}), run)
    ensures var s := After(Small(), Init(Small(), {}), run);
      && s.main.MReturn? && s.hist.accepted != [] && s.job.table == []
      && forall t :: Reachable(Small(), s.seen, t) ==> t.job.table == []
  {
    run := FailedIsOverwritten();
    var c, s := Small(), After(Small(), Init(Small(), {}), run);
    forall t | Reachable(c, s.seen, t) ensures t.job.table == [] {
      TableWithinAccepted(c, s.seen, t);
      NothingNew(c, s.seen, t);
    }
  }

  // ---- Progress ---------------------------------------------------------------------------------

  /** The percentage of a job response, as the code computes it. */
  function ProgressPct(filesRead: nat, totalFiles: nat): int {
    if totalFiles > 0 then filesRead * 100 / totalFiles else 0
  }

  lemma {:induction false} NoProduct(d: nat, n: nat)
    requires n > 0
    ensures d > 0 ==> d * n >= n
  {
    if d > 1 { NoProduct(d - 1, n); }
  }

  lemma QuotientBelow(a: nat, n: nat, k: nat)
    requires n > 0 && a <= k * n
    ensures a / n <= k && (a / n == k <==> a == k * n)
  {
    var q := a / n;
    assert a == q * n + a % n;
    var over, under := if q > k then q - k else 0, if q < k then k - q else 0;
    NoProduct(over, n);
    NoProduct(under, n);
    assert (k + over) * n == k * n + over * n;
    assert (q + under) * n == q * n + under * n;
  }

  lemma PercentageRange(filesRead: nat, totalFiles: nat)
    requires filesRead <= totalFiles
    ensures 0 <= ProgressPct(filesRead, totalFiles) <= 100
    ensures totalFiles > 0 ==> (ProgressPct(filesRead, totalFiles) == 100 <==> filesRead == totalFiles)
  {
    if totalFiles > 0 { QuotientBelow(filesRead * 100, totalFiles, 100); }
  }

  /** The percentage is rounded down: it is the greatest p with p * totalFiles <= 100 * filesRead. */
  lemma PercentageIsFloor(filesRead: nat, totalFiles: nat, p: int)
    ensures totalFiles == 0 ==> ProgressPct(filesRead, totalFiles) == 0
    ensures totalFiles > 0 ==> (p * totalFiles <= 100 * filesRead <==> p <= ProgressPct(filesRead, totalFiles))
  {
    if totalFiles > 0 {
      var q, r := ProgressPct(filesRead, totalFiles), filesRead * 100 % totalFiles;
      assert 100 * filesRead == q * totalFiles + r;
      var below, above := if p < q then q - p else 0, if p > q then p - q else 0;
      NoProduct(above, totalFiles);
      assert (p + below - above) * totalFiles == p * totalFiles + below * totalFiles - above * totalFiles;
      assert below * totalFiles >= 0;
    }
  }

  /** In every reachable state the progress column is between 0 and the number of files, no action lowers it, and
      the reported percentage is in range and reaches 100 exactly when every file has been counted. */
  lemma ProgressIsSound(c: Config, seen: set<string>, s: State, a: Action)
    requires Reachable(c, seen, s) && Enabled(c, s, a)
    ensures s.job.filesRead <= |c.paths|
    ensures s.job.filesRead <= Apply(c, s, a).job.filesRead <= s.job.filesRead + 1
    ensures 0 <= ProgressPct(s.job.filesRead, |c.paths|) <= 100
    ensures |c.paths| > 0 ==> (ProgressPct(s.job.filesRead, |c.paths|) == 100 <==> s.job.filesRead == |c.paths|)
  {
    ReachableControl(c, seen, s);
    PercentageRange(s.job.filesRead, |c.paths|);
    ProgressStep(c, s, a);
  }

  lemma ProgressStep(c: Config, s: State, a: Action)
    requires Enabled(c, s, a)
    ensures s.job.filesRead <= Apply(c, s, a).job.filesRead <= s.job.filesRead + 1
  {
    match a
    case Check(w, l) => CheckFrame(c, s, w, l);
    case Read(w, l) =>
    case Save(w, l) => SaveFrame(c, s, w, l);
    case Main(l) => MainFrame(c, s, l);
    case _ => OutsideFrame(c, s, a);
  }

  /** Cancelling one job freezes it, whatever the jobs do afterwards. */
  lemma CancelFreezesJob(w: World, i: nat, moves: seq<Move>)
    requires WellFormed(w) && i < |w.jobs| && CanMove(w, Move(i, CancelJob))
        && WorldLegal(MoveTo(w, Move(i, CancelJob)), moves)
    ensures var t := WorldAfter(MoveTo(w, Move(i, CancelJob)), moves);
      SameEffects(w.jobs[i], t.jobs[i]) && OnlyFinalWrite(w.jobs[i], t.jobs[i])
  {
    var v := MoveTo(w, Move(i, CancelJob));
    ProjectionIsRun(v, moves, i);
    FrozenOnceCancelled(w.configs[i], v.jobs[i], Projection(v, moves, i));
  }
}
