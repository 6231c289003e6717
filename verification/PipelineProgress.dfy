/** Every run of the pipeline ends: a natural number falls with every action except those of other jobs. */
module PipelineProgress {
  import opened Capture
  import opened Aggregates
  import opened Pipeline
  import opened PipelineControl
  import opened PipelineFrames

  function EventCount(c: Config, path: Path): nat { |c.disk(path).events| }

  function Left(c: Config, path: Path, pos: nat): nat {
    if pos <= EventCount(c, path) then EventCount(c, path) - pos else 0
  }

  /** The work a path still causes while it waits to be fed, in `files`, and in `validFiles`. */
  function UnfedWork(c: Config, path: Path): nat { 16 + 12 * EventCount(c, path) }
  function FileWork(c: Config, path: Path): nat { 15 + 12 * EventCount(c, path) }
  function ValidWork(c: Config, path: Path): nat { 12 + 12 * EventCount(c, path) }

  const BATCH_WORK: nat := 4

  function CheckerWork(c: Config, k: Checker): nat {
    match k
    case CRecv => 1
    case CCheck(path) => FileWork(c, path)
    case CSend(path) => 14 + 12 * EventCount(c, path)
    case CDone => 0
  }

  function ReaderWork(c: Config, r: Reader): nat {
    match r
    case RRecv => 1
    case RCheck(path) => 12 + 12 * EventCount(c, path)
    case ROpen(path) => 11 + 12 * EventCount(c, path)
    case RPoll(path, pos) => 10 + 12 * Left(c, path, pos)
    case RRead(path, pos, _) => 9 + 12 * Left(c, path, pos)
    case RSend(path, pos, _, last) => if last then 8 else 16 + 12 * Left(c, path, pos)
    case RCount(path, pos, _, last) => if last then 3 else 11 + 12 * Left(c, path, pos)
    case RProgress(_) => 2
    case RDone => 0
  }

  function SaverWork(v: Saver): nat {
    match v.pc
    case SWait => 2
    case SWrite(_) => 5
    case SMark(_) => 4
    case SAbort(_) => 3
    case STally(_, _) => 4
    case SRest => 3
    case SExit => 1
    case SDone => 0
  }

  function MainWork(c: Config, m: MainPc): nat {
    match m
    case MFeed(_) => c.savers + 5
    case MLaunch => c.savers + 4
    case MCollect(i, _) => 3 + if i <= c.savers then c.savers - i else 0
    case MReport(_) => 2
    case MReturn(_) => 1
    case MDone(_) => 0
  }

  function Flag(b: bool): nat { if b then 0 else 1 }

  function FilesWork(c: Config, s: State): nat { Sum(s.files.buf, p => FileWork(c, p)) }

  function ValidsWork(c: Config, s: State): nat { Sum(s.valid.buf, p => ValidWork(c, p)) }

  function UnfedsWork(c: Config, m: MainPc): nat {
    if m.MFeed? && m.i <= |c.paths| then Sum(c.paths[m.i..], p => UnfedWork(c, p)) else 0
  }

  function CheckersWork(c: Config, ks: seq<Checker>): nat { Sum(ks, e => CheckerWork(c, e)) }

  function ReadersWork(c: Config, rs: seq<Reader>): nat { Sum(rs, e => ReaderWork(c, e)) }

  function SaversWork(vs: seq<Saver>): nat { Sum(vs, e => SaverWork(e)) }

  /** The termination measure. */
  function Work(c: Config, s: State): nat {
    UnfedsWork(c, s.main) + FilesWork(c, s) + CheckersWork(c, s.checkers) + ValidsWork(c, s)
    + ReadersWork(c, s.readers) + BATCH_WORK * |s.stream.buf| + SaversWork(s.savers)
    + MainWork(c, s.main) + Flag(s.validCloser) + Flag(s.streamCloser) + Flag(s.cancelled)
  }

  lemma CheckerWorks(c: Config, s: State, w: nat, l: CheckLabel)
    requires Enabled(c, s, Check(w, l))
    ensures Work(c, Apply(c, s, Check(w, l))) < Work(c, s)
  {
    var s' := Apply(c, s, Check(w, l));
    CheckFrame(c, s, w, l);
    SumUpdate(s.checkers, w, CheckerNext(c, s.checkers[w], l), e => CheckerWork(c, e));
    if l.Handed? {
      SumAppend(s.valid.buf, s.checkers[w].path, p => ValidWork(c, p));
      assert ValidsWork(c, s') == ValidsWork(c, s) + ValidWork(c, s.checkers[w].path);
    } else if l.TakeFile? {
      assert FilesWork(c, s) == FileWork(c, l.path) + FilesWork(c, s');
    }
  }

  /** One record lowers a reader's own work. */
  lemma RecordWorks(c: Config, r: Reader)
    requires r.RRead?
    ensures ReaderWork(c, NextRecord(c.disk(r.path), r.path, r.pos, r.batch)) < ReaderWork(c, r)
  {
  }

  lemma ReaderWorks(c: Config, s: State, w: nat, l: ReadLabel)
    requires Enabled(c, s, Read(w, l))
    ensures Work(c, Apply(c, s, Read(w, l))) < Work(c, s)
  {
    var s' := Apply(c, s, Read(w, l));
    ReadFrame(c, s, w, l);
    SumUpdate(s.readers, w, ReaderNext(c, s.readers[w], l), e => ReaderWork(c, e));
    if l.TakeValid? {
      assert ValidsWork(c, s) == ValidWork(c, l.path) + ValidsWork(c, s');
    } else {
      ReaderOwnWork(c, s.readers[w], l);
      assert s'.valid == s.valid && |s'.stream.buf| == |s.stream.buf| + if l.Sent? then 1 else 0;
    }
  }

  /** A step of a reader that takes no path lowers its own work, by more than a batch's if it sends one. */
  lemma ReaderOwnWork(c: Config, r: Reader, l: ReadLabel)
    requires ReaderCan(c, r, l) && !l.TakeValid?
    ensures ReaderWork(c, ReaderNext(c, r, l)) + (if l.Sent? then BATCH_WORK else 0) < ReaderWork(c, r)
  {
    if l.Record? { RecordWorks(c, r); }
  }

  lemma SaverWorks(c: Config, s: State, w: nat, l: SaveLabel)
    requires Enabled(c, s, Save(w, l))
    ensures Work(c, Apply(c, s, Save(w, l))) < Work(c, s)
  {
    SaveFrame(c, s, w, l);
    SumUpdate(s.savers, w, SaverNext(s.savers[w], l), e => SaverWork(e));
  }

  lemma MainWorks(c: Config, s: State, l: MainLabel)
    requires Control(c, s) && Enabled(c, s, Main(l))
    ensures Work(c, Apply(c, s, Main(l))) < Work(c, s)
  {
    var s' := Apply(c, s, Main(l));
    MainFrame(c, s, l);
    if l.Feed? {
      FeedWorks(c, s);
    } else {
      assert s'.files.buf == s.files.buf && UnfedsWork(c, s'.main) == 0;
      assert MainWork(c, s'.main) < MainWork(c, s.main);
    }
  }

  lemma FeedWorks(c: Config, s: State)
    requires Enabled(c, s, Main(Feed))
    ensures var s' := Apply(c, s, Main(Feed));
      FilesWork(c, s') + UnfedsWork(c, s'.main) < FilesWork(c, s) + UnfedsWork(c, s.main)
  {
    var i := s.main.i;
    var s' := Apply(c, s, Main(Feed));
    SumAppend(s.files.buf, c.paths[i], p => FileWork(c, p));
    assert FilesWork(c, s') == FilesWork(c, s) + FileWork(c, c.paths[i]);
    assert c.paths[i..][1..] == c.paths[i + 1..];
    assert UnfedsWork(c, s.main) == UnfedWork(c, c.paths[i]) + UnfedsWork(c, s'.main);
  }

  /** Every action of the job, and its cancellation, lowers the measure. */
  lemma WorkFalls(c: Config, s: State, a: Action)
    requires Control(c, s) && Enabled(c, s, a) && !a.OtherInserts?
    ensures Work(c, Apply(c, s, a)) < Work(c, s)
  {
    match a
    case Main(l) => MainWorks(c, s, l);
    case Check(w, l) => CheckerWorks(c, s, w, l);
    case Read(w, l) => ReaderWorks(c, s, w, l);
    case Save(w, l) => SaverWorks(c, s, w, l);
    case _ =>
  }

  function OwnActions(run: seq<Action>): nat {
    if run == [] then 0 else (if run[0].OtherInserts? then 0 else 1) + OwnActions(run[1..])
  }

  lemma {:induction false} WorkAlong(c: Config, s: State, run: seq<Action>)
    requires Control(c, s) && Legal(c, s, run)
    ensures OwnActions(run) + Work(c, After(c, s, run)) <= Work(c, s)
    decreases |run|
  {
    if run == [] {
    } else {
      ControlPreserved(c, s, run[0]);
      if !run[0].OtherInserts? { WorkFalls(c, s, run[0]); }
      WorkAlong(c, Apply(c, s, run[0]), run[1..]);
    }
  }

  /** No run takes more actions than the work of its initial state, and a run that cannot be extended by
      an action of a goroutine has ended: every goroutine, including ProcessWithPool, has returned. */
  lemma RunsEnd(c: Config, seen: set<string>, run: seq<Action>)
    requires Legal(c, Init(c, seen), run)
    ensures OwnActions(run) <= Work(c, Init(c, seen))
    ensures (forall a :: Enabled(c, After(c, Init(c, seen), run), a) ==> Environment(a)) ==>
        Final(After(c, Init(c, seen), run))
  {
    InitControl(c, seen);
    WorkAlong(c, Init(c, seen), run);
    var s := After(c, Init(c, seen), run);
    if !Final(s) {
      var a := NoDeadlock(c, seen, s);
    }
  }

  // ---- Who has finished when COMPLETED is written -----------------------------------------------

  /** When ProcessWithPool has its counts, every saver has made its last move. */
  lemma CollectedMeansSaved(c: Config, s: State)
    requires Control(c, s) && Collected(s.main)
    ensures SaversDone(s)
  {
    DoneCountBound(s.savers);
  }

  /** Without cancellation, and with a reader and a saver, everybody else has finished too and nothing is left over. */
  lemma CollectedMeansRead(c: Config, s: State)
    requires Control(c, s) && Collected(s.main) && !s.cancelled && c.readers > 0 && c.savers > 0
    ensures ReadersDone(s) && CheckersDone(s)
    ensures s.valid.buf == [] && s.stream.buf == []
    ensures c.checkers > 0 ==> Drained(s.files)
  {
    CollectedMeansSaved(c, s);
    assert Leaving(s.savers[0]);
    assert s.readers[0].RDone?;
    if c.checkers > 0 { assert s.checkers[0].CDone?; }
  }

  lemma StillCollected(c: Config, s: State, a: Action)
    requires Control(c, s) && Collected(s.main) && Enabled(c, s, a)
    ensures !a.Save? && Collected(Apply(c, s, a).main)
  {
    CollectedMeansSaved(c, s);
    if !a.Main? { assert Apply(c, s, a).main == s.main; }
  }

  lemma {:induction false} SilentOnceCollected(c: Config, s: State, run: seq<Action>, j: nat)
    requires Control(c, s) && Collected(s.main) && Legal(c, s, run) && j < |run|
    ensures !run[j].Save?
    decreases |run|
  {
    StillCollected(c, s, run[0]);
    if j == 0 {
    } else {
      ControlPreserved(c, s, run[0]);
      SilentOnceCollected(c, Apply(c, s, run[0]), run[1..], j - 1);
    }
  }

  lemma {:induction false} SilentAfterReport(c: Config, s: State, run: seq<Action>, i: nat, j: nat)
    requires Control(c, s) && Legal(c, s, run)
    requires i < j < |run| && run[i].Main? && (run[i].m.CompletedWritten? || run[i].m.CompletedLost?)
    ensures !run[j].Save?
    decreases |run|
  {
    ControlPreserved(c, s, run[0]);
    var s' := Apply(c, s, run[0]);
    if i > 0 {
      SilentAfterReport(c, s', run[1..], i - 1, j - 1);
    } else {
      SilentOnceCollected(c, s', run[1..], j - 1);
    }
  }

  /** Quiescence: in every run, once the final status has been written (or its write lost) no saver moves again, so
      every FAILED write precedes it and no copy follows it. */
  lemma QuietAfterCompleted(c: Config, seen: set<string>, run: seq<Action>, i: nat, j: nat)
    requires Legal(c, Init(c, seen), run)
    requires i < j < |run| && run[i].Main? && (run[i].m.CompletedWritten? || run[i].m.CompletedLost?)
    ensures !run[j].Save?
  {
    InitControl(c, seen);
    SilentAfterReport(c, Init(c, seen), run, i, j);
  }
}
