/**
 Which files a pool accepts, for any number of workers: when nobody interferes, one file for every new
 checksum among the hashable listed files, so that the rows it adds do not depend on the schedule.
*/
module PipelineAccepts {
  import opened Capture
  import opened Aggregates
  import opened Pipeline
  import opened PipelineControl
  import opened PipelineFrames
  import opened PipelineProgress
  import opened PipelineRows
  import opened PipelineExact
  import opened PipelineSequential

  /** The checksums of the hashable files among the paths. */
  function Sums(c: Config, paths: seq<Path>): set<string> {
    set p | p in paths && Hashable(c.disk(p)) :: c.disk(p).checksum
  }

  /** A checksum worker is at the check of the path. */
  predicate BeingChecked(ks: seq<Checker>, p: Path) { exists w :: 0 <= w < |ks| && ks[w] == CCheck(p) }

  /** Every fed hashable path has its checksum recorded, waits in the channel, or is being checked. */
  predicate Covered(c: Config, s: State) {
    && FedCount(c, s.main) <= |c.paths|
    && forall i :: 0 <= i < FedCount(c, s.main) && Hashable(c.disk(c.paths[i])) ==>
         c.disk(c.paths[i]).checksum in s.seen || c.paths[i] in s.files.buf || BeingChecked(s.checkers, c.paths[i])
  }

  /** Only listed paths are in the channel or being checked. */
  predicate Listed(c: Config, s: State) {
    && (forall p :: p in s.files.buf ==> p in c.paths)
    && (forall w :: 0 <= w < |s.checkers| && s.checkers[w].CCheck? ==> s.checkers[w].path in c.paths)
  }

  /** The accepted files are listed and hashable, and have one each of the checksums recorded since the start. */
  predicate OneEach(c: Config, s: State, start: set<string>) {
    && s.seen == start + Sums(c, s.hist.accepted)
    && (forall i :: 0 <= i < |s.hist.accepted| ==>
          s.hist.accepted[i] in c.paths && Hashable(c.disk(s.hist.accepted[i]))
              && c.disk(s.hist.accepted[i]).checksum !in start)
    && (forall i, j :: 0 <= i < j < |s.hist.accepted| ==>
        c.disk(s.hist.accepted[i]).checksum != c.disk(s.hist.accepted[j]).checksum)
  }

  // ---- Steps ------------------------------------------------------------------------------------

  lemma CheckerCovers(c: Config, s: State, w: nat, l: CheckLabel)
    requires Covered(c, s) && Enabled(c, s, Check(w, l)) && !l.InsertError?
    ensures Covered(c, Apply(c, s, Check(w, l)))
  {
    CheckFrame(c, s, w, l);
    var t := Apply(c, s, Check(w, l));
    forall i | 0 <= i < FedCount(c, t.main) && Hashable(c.disk(c.paths[i]))
      ensures c.disk(c.paths[i]).checksum in t.seen || c.paths[i] in t.files.buf || BeingChecked(t.checkers, c.paths[i])
    {
      StillCovered(c, s, w, l, c.paths[i]);
    }
  }

  lemma StillCovered(c: Config, s: State, w: nat, l: CheckLabel, p: Path)
    requires Enabled(c, s, Check(w, l)) && !l.InsertError? && Hashable(c.disk(p))
    requires c.disk(p).checksum in s.seen || p in s.files.buf || BeingChecked(s.checkers, p)
    ensures var t := Apply(c, s, Check(w, l));
        c.disk(p).checksum in t.seen || p in t.files.buf || BeingChecked(t.checkers, p)
  {
    CheckFrame(c, s, w, l);
    var t := Apply(c, s, Check(w, l));
    if c.disk(p).checksum in s.seen {
      assert c.disk(p).checksum in t.seen;
    } else if p in s.files.buf {
      if l == TakeFile(p) {
        assert t.checkers[w] == CCheck(p);
      } else if l.TakeFile? {
        assert s.files.buf == [l.path] + t.files.buf;
      } else {
        assert t.files == s.files;
      }
    } else {
      var v :| 0 <= v < |s.checkers| && s.checkers[v] == CCheck(p);
      if v != w { assert t.checkers[v] == CCheck(p); }
    }
  }

  lemma CheckerListed(c: Config, s: State, w: nat, l: CheckLabel)
    requires Listed(c, s) && Enabled(c, s, Check(w, l))
    ensures Listed(c, Apply(c, s, Check(w, l)))
  {
    CheckFrame(c, s, w, l);
    if l.TakeFile? { assert s.files.buf == [l.path] + Apply(c, s, Check(w, l)).files.buf; }
  }

  lemma CheckerOneEach(c: Config, s: State, w: nat, l: CheckLabel, start: set<string>)
    requires OneEach(c, s, start) && Listed(c, s) && Enabled(c, s, Check(w, l))
    ensures OneEach(c, Apply(c, s, Check(w, l)), start)
  {
    CheckFrame(c, s, w, l);
    if l.Inserted? {
      var path := s.checkers[w].path;
      assert Sums(c, s.hist.accepted + [path]) == Sums(c, s.hist.accepted) + {c.disk(path).checksum};
      forall i | 0 <= i < |s.hist.accepted| ensures c.disk(s.hist.accepted[i]).checksum in s.seen {
        assert s.hist.accepted[i] in s.hist.accepted;
      }
    }
  }

  lemma FeedCovers(c: Config, s: State)
    requires Covered(c, s) && Listed(c, s) && Enabled(c, s, Main(Feed))
    ensures Covered(c, Apply(c, s, Main(Feed))) && Listed(c, Apply(c, s, Main(Feed)))
  {
    MainFrame(c, s, Feed);
    var t := Apply(c, s, Main(Feed));
    assert t.files.buf == s.files.buf + [c.paths[s.main.i]];
    forall p | p in s.files.buf ensures p in t.files.buf { }
  }

  lemma MainAccepts(c: Config, s: State, l: MainLabel, start: set<string>)
    requires Covered(c, s) && Listed(c, s) && OneEach(c, s, start) && Enabled(c, s, Main(l))
    ensures var t := Apply(c, s, Main(l)); Covered(c, t) && Listed(c, t) && OneEach(c, t, start)
  {
    MainFrame(c, s, l);
    if l.Feed? { FeedCovers(c, s); }
  }

  lemma OthersAccept(c: Config, s: State, a: Action, start: set<string>)
    requires Covered(c, s) && Listed(c, s) && OneEach(c, s, start) && Enabled(c, s, a) && !a.Main? && !a.Check?
        && !a.OtherInserts?
    ensures var t := Apply(c, s, a); Covered(c, t) && Listed(c, t) && OneEach(c, t, start)
  {
    match a
    case Read(w, l) => ReadFrame(c, s, w, l);
    case Save(w, l) => SaveFrame(c, s, w, l);
    case _ => OutsideFrame(c, s, a);
  }

  lemma AcceptsStep(c: Config, s: State, a: Action, start: set<string>)
    requires Covered(c, s) && Listed(c, s) && OneEach(c, s, start) && Enabled(c, s, a)
    requires !a.OtherInserts? && !(a.Check? && a.c.InsertError?)
    ensures var t := Apply(c, s, a); Covered(c, t) && Listed(c, t) && OneEach(c, t, start)
  {
    match a
    case Check(w, l) =>
      CheckerCovers(c, s, w, l);
      CheckerListed(c, s, w, l);
      CheckerOneEach(c, s, w, l, start);
    case Main(l) => MainAccepts(c, s, l, start);
    case _ => OthersAccept(c, s, a, start);
  }

  lemma {:induction false} AcceptsAlong(c: Config, s: State, run: seq<Action>, start: set<string>)
    requires Covered(c, s) && Listed(c, s) && OneEach(c, s, start) && Legal(c, s, run) && Alone(run)
    ensures var t := After(c, s, run); Covered(c, t) && Listed(c, t) && OneEach(c, t, start)
    decreases |run|
  {
    if run == [] {
    } else {
      AcceptsStep(c, s, run[0], start);
      AcceptsAlong(c, Apply(c, s, run[0]), run[1..], start);
    }
  }

  // ---- The accepted files -----------------------------------------------------------------------

  /** For any pool with workers of each kind: in a run that nobody disturbs, in which no insert fails and no other
      job inserts, the checksums known in the end are those known before and those of all hashable listed files, and
      for each of the new ones exactly one listed file with that checksum has been accepted. */
  lemma AcceptsOnePerNewSum(c: Config, start: set<string>, run: seq<Action>)
    requires c.checkers > 0 && c.readers > 0 && c.savers > 0
    requires Legal(c, Init(c, start), run) && Undisturbed(run) && Alone(run)
        && After(c, Init(c, start), run).main.MReport?
    ensures var s := After(c, Init(c, start), run);
      && s.seen == start + Sums(c, c.paths)
      && OneEach(c, s, start) && Sums(c, s.hist.accepted) == Sums(c, c.paths) - start
  {
    var s := After(c, Init(c, start), run);
    AcceptsAlong(c, Init(c, start), run, start);
    CalmAlong(c, Init(c, start), run);
    InitControl(c, start);
    ControlAlong(c, Init(c, start), run);
    CollectedMeansRead(c, s);
    AllCovered(c, s, start);
  }

  lemma AllCovered(c: Config, s: State, start: set<string>)
    requires Covered(c, s) && OneEach(c, s, start) && CheckersDone(s) && s.files.buf == [] && Fed(s.main)
    ensures s.seen == start + Sums(c, c.paths) && Sums(c, s.hist.accepted) == Sums(c, c.paths) - start
  {
    forall x | x in Sums(c, c.paths) ensures x in s.seen {
      var p :| p in c.paths && Hashable(c.disk(p)) && c.disk(p).checksum == x;
      var i :| 0 <= i < |c.paths| && c.paths[i] == p;
      assert !BeingChecked(s.checkers, p);
    }
    forall x | x in Sums(c, s.hist.accepted) ensures x in Sums(c, c.paths) && x !in start {
      var p :| p in s.hist.accepted && Hashable(c.disk(p)) && c.disk(p).checksum == x;
      var i :| 0 <= i < |s.hist.accepted| && s.hist.accepted[i] == p;
    }
  }

  // ---- The rows do not depend on the schedule ---------------------------------------------------

  predicate DistinctSums(c: Config, paths: seq<Path>) {
    && (forall i :: 0 <= i < |paths| ==> Hashable(c.disk(paths[i])))
    && (forall i, j :: 0 <= i < j < |paths| ==> c.disk(paths[i]).checksum != c.disk(paths[j]).checksum)
  }

  /** Files with equal checksums have equal rows. */
  predicate SumsDetermineRows(c: Config, paths: seq<Path>) {
    forall p, q :: p in paths && q in paths && c.disk(p).checksum == c.disk(q).checksum ==>
        FileRows(c.disk(p)) == FileRows(c.disk(q))
  }

  function Without(paths: seq<Path>, j: nat): seq<Path>
    requires j < |paths|
  {
    paths[..j] + paths[j + 1..]
  }

  lemma {:induction false} RowsWithout(c: Config, paths: seq<Path>, j: nat, x: Row)
    requires j < |paths|
    ensures Occ(AllRows(c, paths), x) == Occ(FileRows(c.disk(paths[j])), x) + Occ(AllRows(c, Without(paths, j)), x)
  {
    OccConcat(FileRows(c.disk(paths[0])), AllRows(c, paths[1..]), x);
    if j == 0 {
      assert Without(paths, 0) == paths[1..];
    } else {
      RowsWithout(c, paths[1..], j - 1, x);
      OccConcat(FileRows(c.disk(paths[0])), AllRows(c, Without(paths[1..], j - 1)), x);
      WithoutFirst(c, paths, j);
    }
  }

  lemma WithoutFirst(c: Config, paths: seq<Path>, j: nat)
    requires 0 < j < |paths|
    ensures AllRows(c, Without(paths, j)) == FileRows(c.disk(paths[0])) + AllRows(c, Without(paths[1..], j - 1))
  {
    var rest := Without(paths, j);
    assert rest[0] == paths[0] && rest[1..] == Without(paths[1..], j - 1);
  }

  lemma SumsWithout(c: Config, paths: seq<Path>, j: nat)
    requires DistinctSums(c, paths) && j < |paths|
    ensures DistinctSums(c, Without(paths, j)) && Sums(c, Without(paths, j)) == Sums(c, paths)
        - {c.disk(paths[j]).checksum}
  {
    var rest := Without(paths, j);
    forall i | 0 <= i < |paths| && i != j
        ensures paths[i] in rest && c.disk(paths[i]).checksum != c.disk(paths[j]).checksum {
      assert paths[i] == rest[if i < j then i else i - 1];
    }
    forall i | 0 <= i < |rest| ensures rest[i] in paths && c.disk(rest[i]).checksum != c.disk(paths[j]).checksum {
      assert rest[i] == paths[if i < j then i else i + 1];
    }
  }

  lemma FirstSum(c: Config, paths: seq<Path>)
    requires DistinctSums(c, paths) && paths != []
    ensures c.disk(paths[0]).checksum in Sums(c, paths)
  {
    assert paths[0] in paths;
  }

  /** The path of the other list with the same checksum; without the two the lists match again. */
  lemma Partner(c: Config, xs: seq<Path>, ys: seq<Path>) returns (j: nat)
    requires DistinctSums(c, xs) && DistinctSums(c, ys) && Sums(c, xs) == Sums(c, ys) && xs != []
    ensures j < |ys| && c.disk(ys[j]).checksum == c.disk(xs[0]).checksum
    ensures DistinctSums(c, Without(xs, 0)) && DistinctSums(c, Without(ys, j))
        && Sums(c, Without(xs, 0)) == Sums(c, Without(ys, j))
  {
    FirstSum(c, xs);
    var q :| q in ys && Hashable(c.disk(q)) && c.disk(q).checksum == c.disk(xs[0]).checksum;
    j :| 0 <= j < |ys| && ys[j] == q;
    SumsWithout(c, xs, 0);
    SumsWithout(c, ys, j);
  }

  lemma {:induction false} RowsBySums(c: Config, all: seq<Path>, xs: seq<Path>, ys: seq<Path>, x: Row)
    requires SumsDetermineRows(c, all) && DistinctSums(c, xs) && DistinctSums(c, ys) && Sums(c, xs) == Sums(c, ys)
    requires (forall p :: p in xs ==> p in all) && (forall p :: p in ys ==> p in all)
    ensures Occ(AllRows(c, xs), x) == Occ(AllRows(c, ys), x)
    decreases |xs|
  {
    if xs == [] {
      if ys != [] { FirstSum(c, ys); }
    } else {
      var j := Partner(c, xs, ys);
      RowsWithout(c, xs, 0, x);
      RowsWithout(c, ys, j, x);
      assert FileRows(c.disk(xs[0])) == FileRows(c.disk(ys[j]));
      RowsBySums(c, all, Without(xs, 0), Without(ys, j), x);
    }
  }

  lemma {:induction false} SameDiskSameRows(c: Config, d: Config, paths: seq<Path>)
    requires c.disk == d.disk
    ensures AllRows(c, paths) == AllRows(d, paths)
  {
    if paths == [] {
    } else {
      SameDiskSameRows(c, d, paths[1..]);
    }
  }

  /** Two pools of any sizes over the same files and the same known checksums, both undisturbed and alone, add the same
      rows, however their steps were interleaved, if files with equal checksums have equal rows. */
  lemma ScheduleIndependent(c: Config, d: Config, start: set<string>, run: seq<Action>, other: seq<Action>)
    requires c.checkers > 0 && c.readers > 0 && c.savers > 0 && d.checkers > 0 && d.readers > 0 && d.savers > 0
    requires c.disk == d.disk && c.paths == d.paths && SumsDetermineRows(c, c.paths)
    requires Legal(c, Init(c, start), run) && Undisturbed(run) && Alone(run)
        && After(c, Init(c, start), run).main.MReport?
    requires Legal(d, Init(d, start), other) && Undisturbed(other) && Alone(other)
        && After(d, Init(d, start), other).main.MReport?
    ensures multiset(After(c, Init(c, start), run).job.table) == multiset(After(d, Init(d, start), other).job.table)
  {
    var s, t := After(c, Init(c, start), run), After(d, Init(d, start), other);
    AcceptsOnePerNewSum(c, start, run);
    AcceptsOnePerNewSum(d, start, other);
    UndisturbedRunsAreExact(c, start, run);
    UndisturbedRunsAreExact(d, start, other);
    SameDiskSameRows(c, d, t.hist.accepted);
    assert Sums(d, t.hist.accepted) == Sums(c, t.hist.accepted) && Sums(d, d.paths) == Sums(c, c.paths);
    forall x: Row ensures multiset(s.job.table)[x] == multiset(t.job.table)[x] {
      RowsBySums(c, c.paths, s.hist.accepted, t.hist.accepted, x);
      OccMultiset(AllRows(c, s.hist.accepted), x);
      OccMultiset(AllRows(c, t.hist.accepted), x);
    }
  }
}
