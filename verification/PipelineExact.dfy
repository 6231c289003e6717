/** What the counters and the table hold when ProcessWithPool writes COMPLETED. */
module PipelineExact {
  import opened Capture
  import opened Aggregates
  import opened Pipeline
  import opened PipelineControl
  import opened PipelineFrames
  import opened PipelineProgress
  import opened PipelineRows

  function ToTally(v: Saver): nat { if v.pc.STally? then v.pc.n else 0 }

  function DoneSaved(v: Saver): nat { if v.pc.SDone? then v.saved else 0 }

  function ToCount(r: Reader): nat { if r.RCount? then r.n else 0 }

  function ToTallies(vs: seq<Saver>): nat { Sum(vs, e => ToTally(e)) }

  function SavedSum(vs: seq<Saver>): nat { Sum(vs, (e: Saver) => e.saved) }

  function DoneSavedSum(vs: seq<Saver>): nat { Sum(vs, e => DoneSaved(e)) }

  function ToCounts(rs: seq<Reader>): nat { Sum(rs, e => ToCount(e)) }

  /** The totalPackets accumulated so far. */
  function Collecting(m: MainPc): nat {
    if m.MFeed? || m.MLaunch? then 0 else m.total
  }

  predicate Counters(s: State) {
    && |s.job.table| == s.totalSaved + ToTallies(s.savers)
    && s.totalSaved == SavedSum(s.savers)
    && Collecting(s.main) + Total(s.counts.buf) == DoneSavedSum(s.savers)
    && |s.hist.sent| == s.totalRead + ToCounts(s.readers)
  }

  lemma InitCounters(c: Config, seen: set<string>)
    ensures Counters(Init(c, seen))
  {
    var s := Init(c, seen);
    var vs, rs := s.savers, s.readers;
    SumConstant(vs, 0, e => ToTally(e));
    SumConstant(vs, 0, (e: Saver) => e.saved);
    SumConstant(vs, 0, e => DoneSaved(e));
    SumConstant(rs, 0, e => ToCount(e));
  }

  /** What a saver's step adds to the table is what it has still to tally. */
  lemma SaverTallies(c: Config, s: State, w: nat, l: SaveLabel)
    requires Enabled(c, s, Save(w, l))
    ensures var t, v, v' := Apply(c, s, Save(w, l)), s.savers[w], SaverNext(s.savers[w], l);
      && |t.job.table| + ToTally(v) + v.saved == |s.job.table| + ToTally(v') + v'.saved
      && t.totalSaved + v.saved == s.totalSaved + v'.saved
      && DoneSaved(v) == 0 && DoneSaved(v') == (if l.Reported? then v.saved else 0)
      && t.counts.buf == (if l.Reported? then s.counts.buf + [v.saved] else s.counts.buf)
  {
  }

  lemma SaverCounters(c: Config, s: State, w: nat, l: SaveLabel)
    requires Counters(s) && Enabled(c, s, Save(w, l))
    ensures Counters(Apply(c, s, Save(w, l)))
  {
    SaveFrame(c, s, w, l);
    SaverTallies(c, s, w, l);
    SumUpdate(s.savers, w, SaverNext(s.savers[w], l), e => ToTally(e));
    SumUpdate(s.savers, w, SaverNext(s.savers[w], l), (e: Saver) => e.saved);
    SumUpdate(s.savers, w, SaverNext(s.savers[w], l), e => DoneSaved(e));
    TotalAppend(s.counts.buf, s.savers[w].saved);
  }

  lemma MainCounters(c: Config, s: State, l: MainLabel)
    requires Counters(s) && Enabled(c, s, Main(l))
    ensures Counters(Apply(c, s, Main(l)))
  {
    MainFrame(c, s, l);
  }

  lemma ReaderCounters(c: Config, s: State, w: nat, l: ReadLabel)
    requires Counters(s) && Enabled(c, s, Read(w, l))
    ensures Counters(Apply(c, s, Read(w, l)))
  {
    ReadFrame(c, s, w, l);
    SumUpdate(s.readers, w, ReaderNext(c, s.readers[w], l), e => ToCount(e));
  }

  lemma CheckerCounters(c: Config, s: State, w: nat, l: CheckLabel)
    requires Counters(s) && Enabled(c, s, Check(w, l))
    ensures Counters(Apply(c, s, Check(w, l)))
  {
    CheckFrame(c, s, w, l);
  }

  lemma CountersPreserved(c: Config, s: State, a: Action)
    requires Counters(s) && Enabled(c, s, a)
    ensures Counters(Apply(c, s, a))
  {
    match a
    case Save(w, l) => SaverCounters(c, s, w, l);
    case Read(w, l) => ReaderCounters(c, s, w, l);
    case Check(w, l) => CheckerCounters(c, s, w, l);
    case Main(l) => MainCounters(c, s, l);
    case _ => OutsideFrame(c, s, a);
  }

  lemma {:induction false} CountersAlong(c: Config, s: State, run: seq<Action>)
    requires Counters(s) && Legal(c, s, run)
    ensures Counters(After(c, s, run))
    decreases |run|
  {
    if run == [] {
    } else {
      CountersPreserved(c, s, run[0]);
      CountersAlong(c, Apply(c, s, run[0]), run[1..]);
    }
  }

  lemma ReachableCounters(c: Config, seen: set<string>, s: State)
    requires Reachable(c, seen, s)
    ensures Counters(s)
  {
    var run :| Legal(c, Init(c, seen), run) && After(c, Init(c, seen), run) == s;
    InitCounters(c, seen);
    CountersAlong(c, Init(c, seen), run);
  }

  lemma SaversDoneSums(vs: seq<Saver>)
    requires forall i :: 0 <= i < |vs| ==> vs[i].pc.SDone?
    ensures ToTallies(vs) == 0 && DoneSavedSum(vs) == SavedSum(vs)
    ensures forall x :: Held(vs, x) == 0
  {
    SumConstant(vs, 0, e => ToTally(e));
    SumAgree(vs, e => DoneSaved(e), (e: Saver) => e.saved);
    forall x ensures Held(vs, x) == 0 {
      SumConstant(vs, 0, e => Occ(HeldBy(e), x));
    }
  }

  lemma ReadersDoneSums(c: Config, rs: seq<Reader>, x: Row)
    requires forall i :: 0 <= i < |rs| ==> rs[i].RDone?
    ensures ToCounts(rs) == 0 && Batched(rs, x) == 0 && Undecodeds(c, rs, x) == 0
  {
    SumConstant(rs, 0, e => ToCount(e));
    SumConstant(rs, 0, e => Occ(BatchOf(e), x));
    SumConstant(rs, 0, e => Occ(Undecoded(c, e), x));
  }

  lemma CheckersDoneSums(c: Config, ks: seq<Checker>, x: Row)
    requires forall i :: 0 <= i < |ks| ==> ks[i].CDone?
    ensures Pending(c, ks, x) == 0
  {
    SumConstant(ks, 0, e => Occ(PendingAt(c, e), x));
  }

  /** In every run, cancelled or not, the sum of the savers' counts and totalSaved are the number of rows
      the job has in the table by the time the final status is written. */
  lemma CountsAreRows(c: Config, seen: set<string>, s: State)
    requires Reachable(c, seen, s) && Collected(s.main)
    ensures s.main.total == s.totalSaved == |s.job.table|
  {
    ReachableControl(c, seen, s);
    ReachableCounters(c, seen, s);
    CollectedMeansSaved(c, s);
    SaversDoneSums(s.savers);
    EverybodyDone(s.savers);
  }

  /** Exactness: with a reader and a saver and no cancellation, by the time the final status is written the
      table holds exactly the rows of the accepted readable files, and all counters agree with it. */
  lemma Exactness(c: Config, seen: set<string>, s: State)
    requires Reachable(c, seen, s) && Collected(s.main) && !s.cancelled && c.readers > 0 && c.savers > 0
    ensures multiset(s.job.table) == multiset(AllRows(c, s.hist.accepted))
    ensures s.totalRead == s.totalSaved == s.main.total == |s.job.table|
  {
    CountsAreRows(c, seen, s);
    ReachableControl(c, seen, s);
    ReachableCounters(c, seen, s);
    CollectedMeansSaved(c, s);
    CollectedMeansRead(c, s);
    SaversDoneSums(s.savers);
    forall x: Row
      ensures multiset(s.job.table)[x] == multiset(AllRows(c, s.hist.accepted))[x]
      ensures multiset(s.hist.sent)[x] == multiset(s.job.table)[x]
    {
      RowFullyDelivered(c, seen, s, x);
    }
    ReadersDoneSums(c, s.readers, PacketRow(0, NoAddr, NoAddr, 0, 0, "", 0, 0));
    assert multiset(s.hist.sent) == multiset(s.job.table);
    assert |multiset(s.hist.sent)| == |s.hist.sent|;
  }

  lemma RowFullyDelivered(c: Config, seen: set<string>, s: State, x: Row)
    requires Reachable(c, seen, s) && Control(c, s) && !s.cancelled
    requires CheckersDone(s) && ReadersDone(s) && SaversDone(s) && s.valid.buf == [] && s.stream.buf == []
    ensures multiset(s.job.table)[x] == multiset(AllRows(c, s.hist.accepted))[x]
    ensures multiset(s.hist.sent)[x] == multiset(s.job.table)[x]
  {
    ReachableFlow(c, seen, s, x);
    CheckersDoneSums(c, s.checkers, x);
    ReadersDoneSums(c, s.readers, x);
    SaversDoneSums(s.savers);
    assert Flatten(s.stream.buf) == [];
    assert AllRows(c, s.valid.buf) == [];
    OccMultiset(s.job.table, x);
    OccMultiset(s.hist.sent, x);
    OccMultiset(AllRows(c, s.hist.accepted), x);
  }

  /** No one outside cancels the job and no copy fails. */
  predicate Undisturbed(run: seq<Action>) {
    forall i :: 0 <= i < |run| ==> !run[i].CancelJob? && !(run[i].Save? && run[i].v.CopyFailed?)
  }

  predicate Calm(s: State) {
    && (s.cancelled ==> s.main.MDone?)
    && (forall i :: 0 <= i < |s.savers| ==> !s.savers[i].pc.SMark? && !s.savers[i].pc.SAbort?)
  }

  lemma {:induction false} CalmAlong(c: Config, s: State, run: seq<Action>)
    requires Calm(s) && Legal(c, s, run) && Undisturbed(run)
    ensures Calm(After(c, s, run))
    decreases |run|
  {
    if run == [] {
    } else {
      CalmStep(c, s, run[0]);
      CalmAlong(c, Apply(c, s, run[0]), run[1..]);
    }
  }

  lemma CalmStep(c: Config, s: State, a: Action)
    requires Calm(s) && Enabled(c, s, a) && !a.CancelJob? && !(a.Save? && a.v.CopyFailed?)
    ensures Calm(Apply(c, s, a))
  {
    match a
    case Save(w, l) => SaveFrame(c, s, w, l);
    case Read(w, l) => ReadFrame(c, s, w, l);
    case Check(w, l) => CheckFrame(c, s, w, l);
    case Main(l) => MainFrame(c, s, l);
    case _ => OutsideFrame(c, s, a);
  }

  /** The same for runs: nobody cancels and no copy fails, so when the final status is about to be written
      the table is exactly right. */
  lemma UndisturbedRunsAreExact(c: Config, seen: set<string>, run: seq<Action>)
    requires Legal(c, Init(c, seen), run) && Undisturbed(run) && c.readers > 0 && c.savers > 0
    requires var s := After(c, Init(c, seen), run); s.main.MReport? || s.main.MReturn?
    ensures var s := After(c, Init(c, seen), run);
      && multiset(s.job.table) == multiset(AllRows(c, s.hist.accepted))
      && s.totalRead == s.totalSaved == s.main.total == |s.job.table|
      && ReadersDone(s) && CheckersDone(s) && SaversDone(s)
  {
    var s := After(c, Init(c, seen), run);
    CalmAlong(c, Init(c, seen), run);
    Exactness(c, seen, s);
    ReachableControl(c, seen, s);
    CollectedMeansSaved(c, s);
    CollectedMeansRead(c, s);
  }

  // ---- Which files are counted ------------------------------------------------------------------

  function Good(c: Config, p: Path): nat { if Readable(c.disk(p)) then 1 else 0 }

  function GoodFiles(c: Config, paths: seq<Path>): nat { Sum(paths, e => Good(c, e)) }

  function GoodSending(c: Config, k: Checker): nat { if k.CSend? then Good(c, k.path) else 0 }

  function GoodReading(c: Config, r: Reader): nat { if r.RRecv? || r.RDone? then 0 else Good(c, r.path) }

  function GoodSendings(c: Config, ks: seq<Checker>): nat { Sum(ks, e => GoodSending(c, e)) }

  function GoodReadings(c: Config, rs: seq<Reader>): nat { Sum(rs, e => GoodReading(c, e)) }

  /** Every readable accepted file is counted as progress or on its way. */
  predicate FilesFlow(c: Config, s: State) {
    GoodFiles(c, s.hist.accepted) ==
      s.job.filesRead + GoodSendings(c, s.checkers) + GoodFiles(c, s.valid.buf) + GoodReadings(c, s.readers)
  }

  lemma CheckerFiles(c: Config, s: State, w: nat, l: CheckLabel)
    requires FilesFlow(c, s) && Enabled(c, s, Check(w, l)) && !s.cancelled
    ensures FilesFlow(c, Apply(c, s, Check(w, l)))
  {
    CheckFrame(c, s, w, l);
    var k := s.checkers[w];
    SumUpdate(s.checkers, w, CheckerNext(c, k, l), e => GoodSending(c, e));
    match l
    case Inserted => SumAppend(s.hist.accepted, k.path, e => Good(c, e));
    case Handed => SumAppend(s.valid.buf, k.path, e => Good(c, e));
    case _ =>
  }

  lemma ReaderFiles(c: Config, s: State, w: nat, l: ReadLabel)
    requires FilesFlow(c, s) && ReadersOk(c, s) && Enabled(c, s, Read(w, l)) && !s.cancelled && !l.ProgressFailed?
    ensures FilesFlow(c, Apply(c, s, Read(w, l)))
  {
    var t, r, r' := Apply(c, s, Read(w, l)), s.readers[w], ReaderNext(c, s.readers[w], l);
    ReadFrame(c, s, w, l);
    SumUpdate(s.readers, w, r', e => GoodReading(c, e));
    if l.TakeValid? {
      assert GoodFiles(c, s.valid.buf) == Good(c, l.path) + GoodFiles(c, t.valid.buf);
    } else {
      assert t.valid == s.valid && ReaderOk(c, r);
      ReaderGood(c, s, r, l);
      assert t.job.filesRead == s.job.filesRead + if l.ProgressOk? then 1 else 0;
    }
  }

  /** With a live context a reader lets go of a readable file only by counting it. */
  lemma ReaderGood(c: Config, s: State, r: Reader, l: ReadLabel)
    requires ReaderOk(c, r) && ReaderCan(c, r, l) && ReaderGuard(c, s, r, l) && !s.cancelled && !l.TakeValid?
        && !l.ProgressFailed?
    ensures GoodReading(c, r) == GoodReading(c, ReaderNext(c, r, l)) + if l.ProgressOk? then 1 else 0
  {
  }

  lemma OthersFiles(c: Config, s: State, a: Action)
    requires FilesFlow(c, s) && Enabled(c, s, a) && !a.Check? && !a.Read?
    ensures FilesFlow(c, Apply(c, s, a))
  {
    if a.Main? {
      MainFrame(c, s, a.m);
    } else if a.Save? {
      SaveFrame(c, s, a.w, a.v);
    } else {
      OutsideFrame(c, s, a);
    }
  }

  /** No progress update is lost. */
  predicate AllProgressWritten(run: seq<Action>) {
    forall i :: 0 <= i < |run| ==> !(run[i].Read? && run[i].r.ProgressFailed?)
  }

  lemma {:induction false} FilesAlong(c: Config, s: State, run: seq<Action>)
    requires FilesFlow(c, s) && ReadersOk(c, s) && Calm(s) && Legal(c, s, run) && Undisturbed(run)
        && AllProgressWritten(run)
    requires !After(c, s, run).cancelled
    ensures FilesFlow(c, After(c, s, run))
    decreases |run|
  {
    if run == [] {
    } else {
      if s.cancelled { CancelledForGood(c, s, run); }
      if run[0].Check? {
        CheckerFiles(c, s, run[0].w, run[0].c);
      } else if run[0].Read? {
        ReaderFiles(c, s, run[0].w, run[0].r);
      } else {
        OthersFiles(c, s, run[0]);
      }
      ReadersOkPreserved(c, s, run[0]);
      CalmStep(c, s, run[0]);
      FilesAlong(c, Apply(c, s, run[0]), run[1..]);
    }
  }

  lemma {:induction false} CancelledForGood(c: Config, s: State, run: seq<Action>)
    requires s.cancelled && Legal(c, s, run)
    ensures After(c, s, run).cancelled
    decreases |run|
  {
    if run == [] {
    } else {
      CancelledForGood(c, Apply(c, s, run[0]), run[1..]);
    }
  }

  /** In a run that nobody disturbs and in which no progress update is lost, the progress column ends at exactly the
      number of accepted readable files, however many were listed; `PipelineCompletion` says when that is all of
      them. */
  lemma ProgressAtCompletion(c: Config, seen: set<string>, run: seq<Action>)
    requires Legal(c, Init(c, seen), run) && Undisturbed(run) && AllProgressWritten(run) && c.readers > 0
        && c.savers > 0
    requires After(c, Init(c, seen), run).main.MReport?
    ensures After(c, Init(c, seen), run).job.filesRead == GoodFiles(c, After(c, Init(c, seen), run).hist.accepted)
  {
    var i, s := Init(c, seen), After(c, Init(c, seen), run);
    var ks, rs := i.checkers, i.readers;
    SumConstant(ks, 0, e => GoodSending(c, e));
    SumConstant(rs, 0, e => GoodReading(c, e));
    CalmAlong(c, i, run);
    FilesAlong(c, i, run);
    ReachableControl(c, seen, s);
    CollectedMeansRead(c, s);
    var ks', rs' := s.checkers, s.readers;
    SumConstant(ks', 0, e => GoodSending(c, e));
    SumConstant(rs', 0, e => GoodReading(c, e));
  }
}
