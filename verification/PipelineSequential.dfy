/**
 With one worker of each kind the pipeline refines a sequential program: it appends to the table the rows
 of the accepted files, in the order of the file list.
*/
module PipelineSequential {
  import opened Capture
  import opened Aggregates
  import opened Pipeline
  import opened PipelineControl
  import opened PipelineFrames
  import opened PipelineProgress
  import opened PipelineRows
  import opened PipelineExact

  // ---- The sequential program -------------------------------------------------------------------

  predicate Hashable(f: FileData) { f.openable && f.hashable }

  /** The checksums known after the given paths have been checked in order. */
  function SeenAfter(c: Config, paths: seq<Path>, seen: set<string>): set<string> {
    if paths == [] then seen
    else SeenAfter(c, paths[..|paths| - 1], seen)
         + (if Hashable(c.disk(paths[|paths| - 1])) then {c.disk(paths[|paths| - 1]).checksum} else {})
  }

  /** The files a sequential check accepts: readable prefix, checksum not seen before. */
  function Fresh(c: Config, paths: seq<Path>, seen: set<string>): seq<Path> {
    if paths == [] then []
    else
      var rest, p := paths[..|paths| - 1], paths[|paths| - 1];
      Fresh(c, rest, seen)
      + (if Hashable(c.disk(p)) && c.disk(p).checksum !in SeenAfter(c, rest, seen) then [p] else [])
  }

  predicate Single(c: Config) { c.checkers == c.readers == c.savers == 1 }

  // ---- The row order ----------------------------------------------------------------------------

  function Downstream(s: State): seq<Row>
    requires |s.savers| == 1
  {
    s.job.table + HeldBy(s.savers[0]) + Flatten(s.stream.buf)
  }

  function Midstream(c: Config, s: State): seq<Row>
    requires |s.readers| == 1
  {
    BatchOf(s.readers[0]) + Undecoded(c, s.readers[0])
  }

  function Upstream(c: Config, s: State): seq<Row>
    requires |s.checkers| == 1
  {
    AllRows(c, s.valid.buf) + PendingAt(c, s.checkers[0])
  }

  /** Table, saver, stream, reader and accepted paths, read off in that order, are the accepted rows. */
  predicate InOrder(c: Config, s: State) {
    && |s.checkers| == |s.readers| == |s.savers| == 1
    && AllRows(c, s.hist.accepted) == Downstream(s) + Midstream(c, s) + Upstream(c, s)
  }

  lemma CheckerOrder(c: Config, s: State, l: CheckLabel)
    requires InOrder(c, s) && Enabled(c, s, Check(0, l)) && !s.cancelled
    ensures InOrder(c, Apply(c, s, Check(0, l)))
  {
    if l.Inserted? {
      InsertedOrder(c, s);
    } else if l.Handed? {
      HandedOrder(c, s);
    } else {
      CheckFrame(c, s, 0, l);
      var t := Apply(c, s, Check(0, l));
      assert Downstream(t) == Downstream(s) && Midstream(c, t) == Midstream(c, s) && Upstream(c, t) == Upstream(c, s);
    }
  }

  lemma InsertedOrder(c: Config, s: State)
    requires InOrder(c, s) && Enabled(c, s, Check(0, Inserted))
    ensures InOrder(c, Apply(c, s, Check(0, Inserted)))
  {
    CheckFrame(c, s, 0, Inserted);
    var t, path := Apply(c, s, Check(0, Inserted)), s.checkers[0].path;
    AllRowsAppend(c, s.hist.accepted, path);
    assert Downstream(t) == Downstream(s) && Midstream(c, t) == Midstream(c, s);
    assert Upstream(c, t) == Upstream(c, s) + FileRows(c.disk(path));
    Regroup(Downstream(s) + Midstream(c, s), Upstream(c, s), FileRows(c.disk(path)));
  }

  lemma HandedOrder(c: Config, s: State)
    requires InOrder(c, s) && Enabled(c, s, Check(0, Handed))
    ensures InOrder(c, Apply(c, s, Check(0, Handed)))
  {
    CheckFrame(c, s, 0, Handed);
    var t := Apply(c, s, Check(0, Handed));
    AllRowsAppend(c, s.valid.buf, s.checkers[0].path);
    assert Downstream(t) == Downstream(s) && Midstream(c, t) == Midstream(c, s) && Upstream(c, t) == Upstream(c, s);
  }

  lemma Regroup(xs: seq<Row>, ys: seq<Row>, zs: seq<Row>)
    ensures (xs + ys) + zs == xs + (ys + zs)
  {
  }

  lemma TakeValidOrder(c: Config, s: State, path: Path)
    requires InOrder(c, s) && Enabled(c, s, Read(0, TakeValid(path)))
    ensures InOrder(c, Apply(c, s, Read(0, TakeValid(path))))
  {
    ReadFrame(c, s, 0, TakeValid(path));
    var t, rows := Apply(c, s, Read(0, TakeValid(path))), FileRows(c.disk(path));
    assert Downstream(t) == Downstream(s);
    assert AllRows(c, s.valid.buf) == rows + AllRows(c, t.valid.buf);
    assert Midstream(c, s) == [] && Midstream(c, t) == rows;
    assert Upstream(c, s) == rows + Upstream(c, t) by {
      Regroup(rows, AllRows(c, t.valid.buf), PendingAt(c, s.checkers[0]));
    }
    Regroup(Downstream(s), rows, Upstream(c, t));
  }

  lemma RecordOrder(c: Config, s: State)
    requires InOrder(c, s) && Enabled(c, s, Read(0, Record))
    ensures InOrder(c, Apply(c, s, Read(0, Record)))
  {
    ReadFrame(c, s, 0, Record);
    var t, r := Apply(c, s, Read(0, Record)), s.readers[0];
    RecordFlow(c, r);
    Regroup(r.batch, DecodedRow(c, r), Undecoded(c, t.readers[0]));
    assert Midstream(c, t) == Midstream(c, s);
    assert Downstream(t) == Downstream(s) && Upstream(c, t) == Upstream(c, s);
  }

  lemma SentOrder(c: Config, s: State)
    requires InOrder(c, s) && Enabled(c, s, Read(0, Sent))
    ensures InOrder(c, Apply(c, s, Read(0, Sent)))
  {
    ReadFrame(c, s, 0, Sent);
    var r := s.readers[0];
    var t := Apply(c, s, Read(0, Sent));
    FlattenAppend(s.stream.buf, r.batch);
    assert t.hist.accepted == s.hist.accepted && Upstream(c, t) == Upstream(c, s);
    assert Downstream(t) == Downstream(s) + r.batch by {
      Regroup(s.job.table + HeldBy(s.savers[0]), Flatten(s.stream.buf), r.batch);
    }
    assert Midstream(c, s) == r.batch + Midstream(c, t);
    Regroup(Downstream(s), r.batch, Midstream(c, t));
  }

  lemma ReaderOrder(c: Config, s: State, l: ReadLabel)
    requires InOrder(c, s) && ReaderOk(c, s.readers[0]) && Enabled(c, s, Read(0, l)) && !s.cancelled
    ensures InOrder(c, Apply(c, s, Read(0, l)))
  {
    if l.TakeValid? {
      TakeValidOrder(c, s, l.path);
    } else if l.Record? {
      RecordOrder(c, s);
    } else if l.Sent? {
      SentOrder(c, s);
    } else {
      QuietReaderOrder(c, s, l);
    }
  }

  lemma QuietReaderOrder(c: Config, s: State, l: ReadLabel)
    requires InOrder(c, s) && ReaderOk(c, s.readers[0]) && Enabled(c, s, Read(0, l)) && !s.cancelled
    requires !l.TakeValid? && !l.Record? && !l.Sent?
    ensures InOrder(c, Apply(c, s, Read(0, l)))
  {
    ReadFrame(c, s, 0, l);
    UndecodedStep(c, s.readers[0], l);
    var t := Apply(c, s, Read(0, l));
    assert t.valid == s.valid && t.stream == s.stream && BatchOf(t.readers[0]) == BatchOf(s.readers[0]);
    assert Midstream(c, t) == Midstream(c, s) && Downstream(t) == Downstream(s) && Upstream(c, t) == Upstream(c, s);
  }

  lemma TakeBatchOrder(c: Config, s: State, batch: seq<PacketRow>)
    requires InOrder(c, s) && Enabled(c, s, Save(0, TakeBatch(batch)))
    ensures InOrder(c, Apply(c, s, Save(0, TakeBatch(batch))))
  {
    SaveFrame(c, s, 0, TakeBatch(batch));
    var t := Apply(c, s, Save(0, TakeBatch(batch)));
    assert Flatten(s.stream.buf) == batch + Flatten(s.stream.buf[1..]);
    assert Downstream(t) == Downstream(s);
  }

  lemma CopyOrder(c: Config, s: State, slow: bool)
    requires InOrder(c, s) && Enabled(c, s, Save(0, CopyOk(slow)))
    ensures InOrder(c, Apply(c, s, Save(0, CopyOk(slow))))
  {
    SaveFrame(c, s, 0, CopyOk(slow));
    assert Downstream(Apply(c, s, Save(0, CopyOk(slow)))) == Downstream(s);
  }

  lemma SaverOrder(c: Config, s: State, l: SaveLabel)
    requires InOrder(c, s) && Enabled(c, s, Save(0, l)) && !l.Abort?
    ensures InOrder(c, Apply(c, s, Save(0, l)))
  {
    if l.TakeBatch? {
      TakeBatchOrder(c, s, l.batch);
    } else if l.CopyOk? {
      CopyOrder(c, s, l.slow);
    } else {
      SaveFrame(c, s, 0, l);
      assert Downstream(Apply(c, s, Save(0, l))) == Downstream(s);
    }
  }

  lemma MainOrder(c: Config, s: State, l: MainLabel)
    requires InOrder(c, s) && Enabled(c, s, Main(l))
    ensures InOrder(c, Apply(c, s, Main(l)))
  {
    MainFrame(c, s, l);
  }

  lemma OtherOrder(c: Config, s: State, a: Action)
    requires InOrder(c, s) && Enabled(c, s, a) && !a.Main? && !a.Check? && !a.Read? && !a.Save?
    ensures InOrder(c, Apply(c, s, a))
  {
    OutsideFrame(c, s, a);
  }

  lemma OrderStep(c: Config, s: State, a: Action)
    requires InOrder(c, s) && ReadersOk(c, s) && Calm(s) && Enabled(c, s, a) && !s.main.MDone?
    ensures InOrder(c, Apply(c, s, a))
  {
    match a
    case Check(w, l) => CheckerOrder(c, s, l);
    case Read(w, l) => ReaderOrder(c, s, l);
    case Save(w, l) => SaverOrder(c, s, l);
    case Main(l) => MainOrder(c, s, l);
    case _ => OtherOrder(c, s, a);
  }

  // ---- The checking order -----------------------------------------------------------------------

  /** How many of the listed paths the checksum worker is through with. */
  function Checked(c: Config, s: State): int {
    FedCount(c, s.main) - |s.files.buf| - CheckersBusy(s)
  }

  function CheckersBusy(s: State): nat {
    if |s.checkers| == 1 && s.checkers[0].CCheck? then 1 else 0
  }

  /** The paths not yet checked are with the worker and in the channel, in list order, and the accepted
      ones are a subsequence of the checked ones. */
  predicate CheckedInOrder(c: Config, s: State) {
    var n := Checked(c, s);
    && |s.checkers| == 1
    && FedCount(c, s.main) <= |c.paths|
    && 0 <= n
    && (s.checkers[0].CCheck? ==> n < |c.paths| && s.checkers[0].path == c.paths[n])
    && s.files.buf == c.paths[n + CheckersBusy(s)..FedCount(c, s.main)]
    && Subsequence(s.hist.accepted, c.paths[..n])
  }

  lemma CheckedStep(c: Config, s: State, l: CheckLabel)
    requires CheckedInOrder(c, s) && Enabled(c, s, Check(0, l))
    ensures CheckedInOrder(c, Apply(c, s, Check(0, l)))
  {
    CheckFrame(c, s, 0, l);
    if s.checkers[0].CCheck? {
      CheckDone(c, s, l);
    } else if l.TakeFile? {
      var n, t := Checked(c, s), Apply(c, s, Check(0, l));
      assert s.files.buf[0] == c.paths[n];
      assert Checked(c, t) == n;
    }
  }

  lemma CheckDone(c: Config, s: State, l: CheckLabel)
    requires CheckedInOrder(c, s) && Enabled(c, s, Check(0, l)) && s.checkers[0].CCheck?
    ensures CheckedInOrder(c, Apply(c, s, Check(0, l)))
  {
    CheckFrame(c, s, 0, l);
    var n, t := Checked(c, s), Apply(c, s, Check(0, l));
    SubsequenceGrows(c, s.hist.accepted, n, l.Inserted?);
    assert t.files == s.files && Checked(c, t) == n + 1;
    assert t.hist.accepted == if l.Inserted? then s.hist.accepted + [c.paths[n]] else s.hist.accepted;
  }

  lemma SubsequenceGrows(c: Config, accepted: seq<Path>, n: nat, take: bool)
    requires n < |c.paths| && Subsequence(accepted, c.paths[..n])
    ensures Subsequence(if take then accepted + [c.paths[n]] else accepted, c.paths[..n + 1])
  {
    assert c.paths[..n + 1] == c.paths[..n] + [c.paths[n]];
    SubsequenceExtends(accepted, c.paths[..n], c.paths[n]);
  }

  lemma CheckedMain(c: Config, s: State, l: MainLabel)
    requires CheckedInOrder(c, s) && Control(c, s) && Enabled(c, s, Main(l))
    ensures CheckedInOrder(c, Apply(c, s, Main(l)))
  {
    var t := Apply(c, s, Main(l));
    assert t.checkers == s.checkers && t.hist.accepted == s.hist.accepted;
    if l.Feed? {
      FedInOrder(c, s);
    } else {
      assert t.files.buf == s.files.buf && FedCount(c, t.main) == FedCount(c, s.main);
    }
  }

  lemma FedInOrder(c: Config, s: State)
    requires CheckedInOrder(c, s) && Enabled(c, s, Main(Feed))
    ensures CheckedInOrder(c, Apply(c, s, Main(Feed)))
  {
    var t, i, from := Apply(c, s, Main(Feed)), s.main.i, Checked(c, s) + CheckersBusy(s);
    assert t.files.buf == s.files.buf + [c.paths[i]];
    assert Checked(c, t) == Checked(c, s) && CheckersBusy(t) == CheckersBusy(s);
    assert c.paths[from..i] + [c.paths[i]] == c.paths[from..i + 1];
  }

  lemma CheckedWorkers(c: Config, s: State, a: Action)
    requires CheckedInOrder(c, s) && Enabled(c, s, a) && (a.Read? || a.Save?)
    ensures CheckedInOrder(c, Apply(c, s, a))
  {
    if a.Read? { ReadFrame(c, s, a.w, a.r); } else { SaveFrame(c, s, a.w, a.v); }
  }

  lemma CheckedOthers(c: Config, s: State, a: Action)
    requires CheckedInOrder(c, s) && Enabled(c, s, a) && !a.Main? && !a.Check? && !a.Read? && !a.Save?
    ensures CheckedInOrder(c, Apply(c, s, a))
  {
    OutsideFrame(c, s, a);
  }

  lemma CheckedPreserved(c: Config, s: State, a: Action)
    requires CheckedInOrder(c, s) && Control(c, s) && Enabled(c, s, a)
    ensures CheckedInOrder(c, Apply(c, s, a))
  {
    match a
    case Main(l) => CheckedMain(c, s, l);
    case Check(w, l) => CheckedStep(c, s, l);
    case Read(_, _) => CheckedWorkers(c, s, a);
    case Save(_, _) => CheckedWorkers(c, s, a);
    case _ => CheckedOthers(c, s, a);
  }

  // ---- What is accepted when nobody interferes --------------------------------------------------

  /** No other job inserts a checksum and no insert fails. */
  predicate Alone(run: seq<Action>) {
    forall i :: 0 <= i < |run| ==> !run[i].OtherInserts? && !(run[i].Check? && run[i].c.InsertError?)
  }

  predicate AcceptsFresh(c: Config, s: State, seen: set<string>) {
    && 0 <= Checked(c, s) <= |c.paths|
    && s.hist.accepted == Fresh(c, c.paths[..Checked(c, s)], seen)
    && s.seen == SeenAfter(c, c.paths[..Checked(c, s)], seen)
  }

  lemma FreshChecker(c: Config, s: State, l: CheckLabel, seen: set<string>)
    requires CheckedInOrder(c, s) && AcceptsFresh(c, s, seen) && Enabled(c, s, Check(0, l)) && !l.InsertError?
    ensures AcceptsFresh(c, Apply(c, s, Check(0, l)), seen)
  {
    CheckFrame(c, s, 0, l);
    var n := Checked(c, s);
    if s.checkers[0].CCheck? {
      assert c.paths[..n + 1][..n] == c.paths[..n];
      assert Checked(c, Apply(c, s, Check(0, l))) == n + 1;
    } else {
      assert Checked(c, Apply(c, s, Check(0, l))) == n;
    }
  }

  lemma FreshWorkers(c: Config, s: State, a: Action, seen: set<string>)
    requires AcceptsFresh(c, s, seen) && Enabled(c, s, a) && (a.Read? || a.Save?)
    ensures AcceptsFresh(c, Apply(c, s, a), seen)
  {
    if a.Read? { ReadFrame(c, s, a.w, a.r); } else { SaveFrame(c, s, a.w, a.v); }
  }

  lemma FreshMain(c: Config, s: State, a: Action, seen: set<string>)
    requires CheckedInOrder(c, s) && AcceptsFresh(c, s, seen) && Enabled(c, s, a) && !a.Check? && !a.Read? && !a.Save?
        && !a.OtherInserts?
    ensures AcceptsFresh(c, Apply(c, s, a), seen)
  {
    if a.Main? { MainFrame(c, s, a.m); } else { OutsideFrame(c, s, a); }
    assert Checked(c, Apply(c, s, a)) == Checked(c, s);
  }

  lemma FreshStep(c: Config, s: State, a: Action, seen: set<string>)
    requires CheckedInOrder(c, s) && AcceptsFresh(c, s, seen) && Enabled(c, s, a)
    requires !a.OtherInserts? && !(a.Check? && a.c.InsertError?)
    ensures AcceptsFresh(c, Apply(c, s, a), seen)
  {
    if a.Check? {
      FreshChecker(c, s, a.c, seen);
    } else if a.Read? || a.Save? {
      FreshWorkers(c, s, a, seen);
    } else {
      FreshMain(c, s, a, seen);
    }
  }

  // ---- The refinement ---------------------------------------------------------------------------

  lemma {:induction false} CheckedAlong(c: Config, s: State, run: seq<Action>)
    requires Control(c, s) && CheckedInOrder(c, s) && Legal(c, s, run)
    ensures CheckedInOrder(c, After(c, s, run))
    decreases |run|
  {
    if run == [] {
    } else {
      ControlPreserved(c, s, run[0]);
      CheckedPreserved(c, s, run[0]);
      CheckedAlong(c, Apply(c, s, run[0]), run[1..]);
    }
  }

  lemma {:induction false} FreshAlong(c: Config, s: State, run: seq<Action>, seen: set<string>)
    requires Control(c, s) && CheckedInOrder(c, s) && AcceptsFresh(c, s, seen) && Legal(c, s, run) && Alone(run)
    ensures AcceptsFresh(c, After(c, s, run), seen)
    decreases |run|
  {
    if run == [] {
    } else {
      ControlPreserved(c, s, run[0]);
      CheckedPreserved(c, s, run[0]);
      FreshStep(c, s, run[0], seen);
      FreshAlong(c, Apply(c, s, run[0]), run[1..], seen);
    }
  }

  lemma {:induction false} DoneForGood(c: Config, s: State, run: seq<Action>)
    requires s.main.MDone? && Legal(c, s, run)
    ensures After(c, s, run).main.MDone?
    decreases |run|
  {
    if run == [] {
    } else {
      DoneForGood(c, Apply(c, s, run[0]), run[1..]);
    }
  }

  lemma {:induction false} OrderAlong(c: Config, s: State, run: seq<Action>)
    requires InOrder(c, s) && ReadersOk(c, s) && Calm(s) && Legal(c, s, run) && Undisturbed(run)
    requires !After(c, s, run).main.MDone?
    ensures InOrder(c, After(c, s, run))
    decreases |run|
  {
    if run == [] {
    } else {
      if s.main.MDone? { DoneForGood(c, s, run); }
      OrderStep(c, s, run[0]);
      ReadersOkPreserved(c, s, run[0]);
      CalmStep(c, s, run[0]);
      OrderAlong(c, Apply(c, s, run[0]), run[1..]);
    }
  }

  lemma InitSequential(c: Config, seen: set<string>)
    requires Single(c)
    ensures var s := Init(c, seen);
      InOrder(c, s) && ReadersOk(c, s) && Calm(s) && Control(c, s) && CheckedInOrder(c, s) && AcceptsFresh(c, s, seen)
  {
    InitControl(c, seen);
    assert c.paths[..0] == [];
  }

  /** With one worker of each kind, no cancellation and no failed copy, the table receives exactly the rows of
      the accepted files one after the other, and the accepted files come in the order of the file list. */
  lemma SequentialOrder(c: Config, seen: set<string>, run: seq<Action>)
    requires Single(c) && Legal(c, Init(c, seen), run) && Undisturbed(run)
    requires After(c, Init(c, seen), run).main.MReport?
    ensures var s := After(c, Init(c, seen), run);
      s.job.table == AllRows(c, s.hist.accepted) && Subsequence(s.hist.accepted, c.paths) && Checked(c, s) == |c.paths|
  {
    var s := After(c, Init(c, seen), run);
    InitSequential(c, seen);
    OrderAlong(c, Init(c, seen), run);
    CheckedAlong(c, Init(c, seen), run);
    CalmAlong(c, Init(c, seen), run);
    ControlAlong(c, Init(c, seen), run);
    CollectedMeansSaved(c, s);
    CollectedMeansRead(c, s);
    assert c.paths[..|c.paths|] == c.paths;
    NothingOnTheWay(c, s);
  }

  /** When all workers are done and the channels are empty, every accepted row is in the table. */
  lemma NothingOnTheWay(c: Config, s: State)
    requires InOrder(c, s) && CheckersDone(s) && ReadersDone(s) && SaversDone(s) && Fed(s.main)
    requires s.files.buf == [] && s.valid.buf == [] && s.stream.buf == []
    ensures s.job.table == AllRows(c, s.hist.accepted) && Checked(c, s) == |c.paths|
  {
    assert Midstream(c, s) == [] && Upstream(c, s) == [];
    assert Downstream(s) == s.job.table;
  }

  /** If moreover nobody else inserts checksums and no insert fails, the pipeline computes the sequential
      program: check the list in order, skip what has been seen, append the rows of the rest. */
  lemma SequentialRefinement(c: Config, seen: set<string>, run: seq<Action>)
    requires Single(c) && Legal(c, Init(c, seen), run) && Undisturbed(run) && Alone(run)
    requires After(c, Init(c, seen), run).main.MReport?
    ensures After(c, Init(c, seen), run).job.table == AllRows(c, Fresh(c, c.paths, seen))
    ensures After(c, Init(c, seen), run).seen == SeenAfter(c, c.paths, seen)
  {
    SequentialOrder(c, seen, run);
    assert AcceptsFresh(c, After(c, Init(c, seen), run), seen) by {
      InitSequential(c, seen);
      FreshAlong(c, Init(c, seen), run, seen);
    }
    assert c.paths[..|c.paths|] == c.paths;
  }
}
