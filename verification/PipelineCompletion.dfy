/** When a completed job reads 100 percent: a condition on the listed files and the checksums known before the job. */
module PipelineCompletion {
  import opened Capture
  import opened Pipeline
  import opened PipelineControl
  import opened PipelineExact
  import opened PipelineOutcome
  import opened PipelineSequential
  import opened PipelineAccepts
  import opened Jobs

  // ---- Counting checksums -----------------------------------------------------------------------

  /** There are at most as many checksums as paths, and as many only if each path is hashable and has its own. */
  lemma {:induction false} SumsCount(c: Config, paths: seq<Path>)
    ensures |Sums(c, paths)| <= |paths|
    ensures |Sums(c, paths)| == |paths| <==> DistinctSums(c, paths)
  {
    if paths == [] {
    } else {
      var rest, last := paths[..|paths| - 1], paths[|paths| - 1];
      SumsCount(c, rest);
      LastSum(c, rest, last);
      assert paths == rest + [last];
      if DistinctSums(c, paths) { DistinctRest(c, rest, last); }
      if DistinctSums(c, rest) && Hashable(c.disk(last)) && c.disk(last).checksum !in Sums(c, rest) {
        DistinctLast(c, rest, last);
      }
    }
  }

  lemma LastSum(c: Config, rest: seq<Path>, last: Path)
    ensures Sums(c, rest + [last]) == Sums(c, rest) + if Hashable(c.disk(last)) then {c.disk(last).checksum} else {}
  {
    forall p ensures p in rest + [last] <==> p in rest || p == last { }
  }

  lemma DistinctRest(c: Config, rest: seq<Path>, last: Path)
    requires DistinctSums(c, rest + [last])
    ensures DistinctSums(c, rest) && Hashable(c.disk(last)) && c.disk(last).checksum !in Sums(c, rest)
  {
    var paths := rest + [last];
    assert paths[|rest|] == last;
    forall i | 0 <= i < |rest| ensures Hashable(c.disk(rest[i])) && c.disk(rest[i]).checksum != c.disk(last).checksum {
      assert paths[i] == rest[i];
    }
    forall i, j | 0 <= i < j < |rest| ensures c.disk(rest[i]).checksum != c.disk(rest[j]).checksum {
      assert paths[i] == rest[i] && paths[j] == rest[j];
    }
  }

  lemma DistinctLast(c: Config, rest: seq<Path>, last: Path)
    requires DistinctSums(c, rest) && Hashable(c.disk(last)) && c.disk(last).checksum !in Sums(c, rest)
    ensures DistinctSums(c, rest + [last])
  {
    forall i | 0 <= i < |rest| ensures c.disk(rest[i]).checksum != c.disk(last).checksum {
      assert rest[i] in rest;
    }
  }

  lemma {:induction false} GoodFilesCount(c: Config, paths: seq<Path>)
    ensures GoodFiles(c, paths) <= |paths|
    ensures GoodFiles(c, paths) == |paths| <==> forall p :: p in paths ==> Readable(c.disk(p))
  {
    if paths == [] {
    } else {
      GoodFilesCount(c, paths[1..]);
      assert paths == [paths[0]] + paths[1..];
    }
  }

  lemma {:induction false} SubsetCount<T>(xs: set<T>, ys: set<T>)
    requires xs <= ys
    ensures |xs| <= |ys| && (|xs| == |ys| ==> xs == ys)
  {
    if xs == {} {
    } else {
      var x :| x in xs;
      SubsetCount(xs - {x}, ys - {x});
    }
  }

  // ---- The condition ----------------------------------------------------------------------------

  /** Every listed file can be hashed and read, none has been seen before, and no two have the same checksum. */
  predicate AllNew(c: Config, start: set<string>) {
    && (forall p :: p in c.paths ==>
      c.disk(p).openable && c.disk(p).hashable && c.disk(p).header && c.disk(p).checksum !in start)
    && (forall i, j :: 0 <= i < j < |c.paths| ==> c.disk(c.paths[i]).checksum != c.disk(c.paths[j]).checksum)
  }

  lemma AllNewParts(c: Config, start: set<string>)
    ensures AllNew(c, start) <==>
      (forall p :: p in c.paths ==> Readable(c.disk(p)) && c.disk(p).checksum !in start) && DistinctSums(c, c.paths)
  {
    if (forall p :: p in c.paths ==> Readable(c.disk(p)) && c.disk(p).checksum !in start) && DistinctSums(c, c.paths) {
      forall p | p in c.paths ensures Hashable(c.disk(p)) {
        var i :| 0 <= i < |c.paths| && c.paths[i] == p;
      }
    }
  }

  /** With distinct checksums a list with the same checksums, taken from the other, has the same paths. */
  lemma SamePaths(c: Config, all: seq<Path>, some: seq<Path>)
    requires DistinctSums(c, all) && Sums(c, some) == Sums(c, all) && forall p :: p in some ==> p in all
    ensures forall p :: p in all ==> p in some
  {
    forall p | p in all ensures p in some {
      var i :| 0 <= i < |all| && all[i] == p;
      assert c.disk(p).checksum in Sums(c, all);
      var q :| q in some && Hashable(c.disk(q)) && c.disk(q).checksum == c.disk(p).checksum;
      var j :| 0 <= j < |all| && all[j] == q;
      assert i == j;
    }
  }

  /** One accepted file for every new checksum makes as many good files as listed ones exactly if all are new. */
  lemma GoodAcceptedExactly(c: Config, s: State, start: set<string>)
    requires OneEach(c, s, start) && Sums(c, s.hist.accepted) == Sums(c, c.paths) - start
    ensures GoodFiles(c, s.hist.accepted) == |c.paths| <==> AllNew(c, start)
  {
    var accepted := s.hist.accepted;
    assert forall p :: p in accepted ==> p in c.paths;
    SumsCount(c, c.paths);
    SumsCount(c, accepted);
    GoodFilesCount(c, accepted);
    SubsetCount(Sums(c, accepted), Sums(c, c.paths));
    AllNewParts(c, start);
    if AllNew(c, start) { assert Sums(c, c.paths) - start == Sums(c, c.paths); }
    if GoodFiles(c, accepted) == |c.paths| {
      SamePaths(c, c.paths, accepted);
      forall p | p in c.paths ensures Hashable(c.disk(p)) && c.disk(p).checksum !in start {
        assert c.disk(p).checksum in Sums(c, c.paths);
      }
    }
  }

  /** For any pool with workers of each kind, in a run that nobody disturbs, in which no insert fails, no progress
      update is lost and no other job inserts: when COMPLETED is about to be written all listed files have been
      counted, and the job reads 100 percent, if and only if every listed file can be hashed and read, was not seen
      before, and has a checksum of its own in the list. */
  lemma CompleteProgressExactly(c: Config, start: set<string>, run: seq<Action>)
    requires c.checkers > 0 && c.readers > 0 && c.savers > 0
    requires Legal(c, Init(c, start), run) && Undisturbed(run) && Alone(run) && AllProgressWritten(run)
    requires After(c, Init(c, start), run).main.MReport?
    ensures var s := After(c, Init(c, start), run);
      && (s.job.filesRead == |c.paths| <==> AllNew(c, start))
      && (c.paths != [] ==> (ProgressPct(s.job.filesRead, |c.paths|) == 100 <==> AllNew(c, start)))
  {
    var s := After(c, Init(c, start), run);
    ProgressAtCompletion(c, start, run);
    AcceptsOnePerNewSum(c, start, run);
    GoodAcceptedExactly(c, s, start);
    ReachableControl(c, start, s);
    PercentageRange(s.job.filesRead, |c.paths|);
  }

  /** In such a run a listed file that cannot be opened or has no pcap header keeps the job below 100 percent. */
  lemma BadFileBelowHundred(c: Config, start: set<string>, run: seq<Action>, p: Path)
    requires c.checkers > 0 && c.readers > 0 && c.savers > 0
    requires Legal(c, Init(c, start), run) && Undisturbed(run) && Alone(run) && AllProgressWritten(run)
    requires After(c, Init(c, start), run).main.MReport?
    requires p in c.paths && (!c.disk(p).openable || !c.disk(p).header)
    ensures var s := After(c, Init(c, start), run);
      s.job.filesRead < |c.paths| && 0 <= ProgressPct(s.job.filesRead, |c.paths|) < 100
  {
    var s := After(c, Init(c, start), run);
    CompleteProgressExactly(c, start, run);
    ReachableControl(c, start, s);
    PercentageRange(s.job.filesRead, |c.paths|);
  }

  // ---- A file listed twice ----------------------------------------------------------------------

  /** One readable file without packets, listed twice, and one worker of each kind. */
  function Twice(): Config {
    Config(_ => FileData(true, true, "sum", true, []), ["a.pcap", "a.pcap"], 1, 1, 1)
  }

  /** The job up to the point where the file has been accepted. */
  lemma TwiceFed() returns (run: seq<Action>, s: State)
    ensures Legal(Twice(), Init(Twice(), {}), run) && s == After(Twice(), Init(Twice(), {}), run)
    ensures s == Init(Twice(), {}).(main := MCollect(0, 0), files := Chan(["a.pcap"], 2, true), valid :=
        Chan(["a.pcap"], 2, false),
                                    seen := {"sum"}, hist := s.hist)
  {
    var c := Twice();
    run, s := [], Init(c, {});
    run, s := Do(c, Init(c, {}), run, s, Main(Feed));
    run, s := Do(c, Init(c, {}), run, s, Main(Feed));
    run, s := Do(c, Init(c, {}), run, s, Main(CloseFiles));
    run, s := Do(c, Init(c, {}), run, s, Main(Launch));
    run, s := Do(c, Init(c, {}), run, s, Check(0, TakeFile("a.pcap")));
    run, s := Do(c, Init(c, {}), run, s, Check(0, Inserted));
    run, s := Do(c, Init(c, {}), run, s, Check(0, Handed));
  }

  /** The job up to the point where the file has been found a duplicate of itself. */
  lemma TwiceChecked() returns (run: seq<Action>, s: State)
    ensures Legal(Twice(), Init(Twice(), {}), run) && s == After(Twice(), Init(Twice(), {}), run)
    ensures s == Init(Twice(), {}).(main := MCollect(0, 0), files := s.files, valid :=
        Chan(["a.pcap"], 2, true), validCloser := true,
                                    checkers := [CDone], seen := {"sum"}, hist := s.hist)
  {
    var c := Twice();
    run, s := TwiceFed();
    run, s := Do(c, Init(c, {}), run, s, Check(0, TakeFile("a.pcap")));
    run, s := Do(c, Init(c, {}), run, s, Check(0, Duplicate));
    run, s := Do(c, Init(c, {}), run, s, Check(0, FilesClosed));
    run, s := Do(c, Init(c, {}), run, s, CloseValid);
  }

  /** The job up to the point where the reader is at the end of the file. */
  lemma TwiceOpened() returns (run: seq<Action>, s: State)
    ensures Legal(Twice(), Init(Twice(), {}), run) && s == After(Twice(), Init(Twice(), {}), run)
    ensures s.main == MCollect(0, 0) && s.job == JobRecord([], 0, []) && s.counts == Chan([], 1, false) && !s.cancelled
    ensures s.savers == [Idle()] && s.stream == Chan([], STREAM_CAPACITY, false) && s.valid == Chan([], 2, true)
        && !s.streamCloser
    ensures s.readers == [RProgress("a.pcap")]
  {
    var c := Twice();
    run, s := TwiceChecked();
    run, s := Do(c, Init(c, {}), run, s, Read(0, TakeValid("a.pcap")));
    run, s := Do(c, Init(c, {}), run, s, Read(0, Live));
    run, s := Do(c, Init(c, {}), run, s, Read(0, Opened));
    run, s := Do(c, Init(c, {}), run, s, Read(0, Live));
    run, s := Do(c, Init(c, {}), run, s, Read(0, Record));
  }

  /** The job up to the point where the reader is done. */
  lemma TwiceRead() returns (run: seq<Action>, s: State)
    ensures Legal(Twice(), Init(Twice(), {}), run) && s == After(Twice(), Init(Twice(), {}), run)
    ensures s.main == MCollect(0, 0) && s.job == JobRecord([], 1, []) && s.counts == Chan([], 1, false) && !s.cancelled
    ensures s.savers == [Idle()] && s.stream == Chan([], STREAM_CAPACITY, true)
  {
    var c := Twice();
    run, s := TwiceOpened();
    run, s := Do(c, Init(c, {}), run, s, Read(0, ProgressOk));
    run, s := Do(c, Init(c, {}), run, s, Read(0, ValidClosed));
    run, s := Do(c, Init(c, {}), run, s, CloseStream);
  }

  /** A job that nothing goes wrong with reads COMPLETED at 50 percent. */
  lemma CompletedBelowHundred() returns (run: seq<Action>)
    ensures Legal(Twice(), Init(Twice(), {}), run)
    ensures var s := After(Twice(), Init(Twice(), {}), run);
      s.main.MReturn? && Current(s) == COMPLETED && ProgressPct(s.job.filesRead, |Twice().paths|) == 50
  {
    var c := Twice();
    var s: State;
    run, s := TwiceRead();
    run, s := Do(c, Init(c, {}), run, s, Save(0, StreamClosed));
    run, s := Do(c, Init(c, {}), run, s, Save(0, Reported));
    run, s := Do(c, Init(c, {}), run, s, Main(Collect));
    run, s := Do(c, Init(c, {}), run, s, Main(CollectDone));
    run, s := Do(c, Init(c, {}), run, s, Main(CompletedWritten));
  }
}
