/** How a job ends: what cancellation freezes, and which status is left in the job row. */
module PipelineOutcome {
  import opened Capture
  import opened Pipeline
  import opened PipelineControl
  import opened PipelineFrames
  import opened PipelineProgress

  // ---- Freeze on cancel -------------------------------------------------------------------------

  /** What the job has done to the database, apart from its final status. */
  predicate SameEffects(s: State, t: State) {
    && s.job.table == t.job.table && s.job.filesRead == t.job.filesRead
    && s.hist.accepted == t.hist.accepted && s.hist.counted == t.hist.counted
  }

  /** The statuses after cancellation: the final write at most, and only if it has not happened yet. */
  predicate OnlyFinalWrite(s: State, t: State) {
    || t.job.statuses == s.job.statuses
    || (t.job.statuses == s.job.statuses + [COMPLETED] && !s.main.MReturn? && !s.main.MDone?
        && (t.main.MReturn? || t.main.MDone?))
  }

  lemma FrozenStep(c: Config, s: State, a: Action)
    requires s.cancelled && Enabled(c, s, a)
    ensures var t := Apply(c, s, a); t.cancelled && SameEffects(s, t) && OnlyFinalWrite(s, t)
    ensures s.main.MReturn? || s.main.MDone? ==> var t := Apply(c, s, a); t.main.MReturn? || t.main.MDone?
  {
    match a
    case Save(w, l) => FrozenSave(c, s, w, l);
    case Read(w, l) => ReadFrame(c, s, w, l);
    case Check(w, l) => CheckFrame(c, s, w, l);
    case Main(l) => MainFrame(c, s, l);
    case _ => OutsideFrame(c, s, a);
  }

  lemma FrozenSave(c: Config, s: State, w: nat, l: SaveLabel)
    requires s.cancelled && Enabled(c, s, Save(w, l))
    ensures var t := Apply(c, s, Save(w, l));
      t.cancelled && SameEffects(s, t) && t.job.statuses == s.job.statuses && t.main == s.main
  {
    if l.CopyOk? { assert s.job.table + [] == s.job.table; }
  }

  /** Once the context is cancelled, whatever cancelled it, no packet row, source-file row, progress
      increment or FAILED write by the job takes effect for the rest of the run; only the final
      COMPLETED write can. */
  lemma {:induction false} FrozenOnceCancelled(c: Config, s: State, run: seq<Action>)
    requires s.cancelled && Legal(c, s, run)
    ensures var t := After(c, s, run); t.cancelled && SameEffects(s, t) && OnlyFinalWrite(s, t)
    ensures s.main.MReturn? || s.main.MDone? ==> var t := After(c, s, run); t.main.MReturn? || t.main.MDone?
    decreases |run|
  {
    if run == [] {
    } else {
      FrozenStep(c, s, run[0]);
      FrozenOnceCancelled(c, Apply(c, s, run[0]), run[1..]);
    }
  }

  /** A failed copy cancels: once the saver has aborted, the rest of the run is frozen. */
  lemma FailedCopyFreezes(c: Config, s: State, w: nat, run: seq<Action>)
    requires Enabled(c, s, Save(w, Abort)) && Legal(c, Apply(c, s, Save(w, Abort)), run)
    ensures SameEffects(s, After(c, Apply(c, s, Save(w, Abort)), run))
    ensures OnlyFinalWrite(s, After(c, Apply(c, s, Save(w, Abort)), run))
  {
    FrozenOnceCancelled(c, Apply(c, s, Save(w, Abort)), run);
  }

  // ---- The final status -------------------------------------------------------------------------

  predicate Concluded(m: MainPc) { m.MReturn? || m.MDone? }

  /** The final status write of the run reached the database. */
  predicate Writes(run: seq<Action>) {
    if run == [] then false else run[0] == Main(CompletedWritten) || Writes(run[1..])
  }

  /** A FAILED write of the run reached the database. */
  predicate Marks(run: seq<Action>) {
    if run == [] then false else (run[0].Save? && run[0].v.FailWritten?) || Marks(run[1..])
  }

  /** COMPLETED is written last or not at all. */
  predicate StatusShape(s: State) {
    forall i :: 0 <= i < |s.job.statuses| ==>
      s.job.statuses[i] == FAILED || (s.job.statuses[i] == COMPLETED && i == |s.job.statuses| - 1 && Concluded(s.main))
  }

  /** The statuses one action writes. */
  function WrittenBy(a: Action): seq<Status> {
    match a
    case Save(_, FailWritten) => [FAILED]
    case Main(CompletedWritten) => [COMPLETED]
    case _ => []
  }

  predicate Reports(a: Action) { a == Main(CompletedWritten) || a == Main(CompletedLost) }

  lemma MainWrites(c: Config, s: State, l: MainLabel)
    requires Enabled(c, s, Main(l))
    ensures var t := Apply(c, s, Main(l));
      && t.job.statuses == s.job.statuses + WrittenBy(Main(l))
      && (Concluded(t.main) <==> Concluded(s.main) || Reports(Main(l)))
      && (Reports(Main(l)) ==> !Concluded(s.main) && Concluded(t.main))
  {
  }

  lemma SaverWrites(c: Config, s: State, w: nat, l: SaveLabel)
    requires Enabled(c, s, Save(w, l))
    ensures var t := Apply(c, s, Save(w, l));
        t.job.statuses == s.job.statuses + WrittenBy(Save(w, l)) && t.main == s.main
  {
  }

  lemma OthersWriteNothing(c: Config, s: State, a: Action)
    requires Enabled(c, s, a) && !a.Main? && !a.Save?
    ensures var t := Apply(c, s, a); t.job.statuses == s.job.statuses && t.main == s.main
  {
    match a
    case Read(w, l) => ReadFrame(c, s, w, l);
    case Check(w, l) => CheckFrame(c, s, w, l);
    case _ => OutsideFrame(c, s, a);
  }

  lemma StatusStep(c: Config, s: State, a: Action)
    requires Control(c, s) && Enabled(c, s, a)
    ensures var t := Apply(c, s, a);
      && t.job.statuses == s.job.statuses + WrittenBy(a)
      && (Concluded(t.main) <==> Concluded(s.main) || Reports(a))
      && (Concluded(s.main) ==> !Reports(a) && WrittenBy(a) == [])
  {
    match a
    case Main(l) => MainWrites(c, s, l);
    case Save(w, l) =>
      SaverWrites(c, s, w, l);
      if Collected(s.main) { CollectedMeansSaved(c, s); }
    case _ => OthersWriteNothing(c, s, a);
  }

  lemma StatusShapeStep(s: State, t: State, a: Action)
    requires StatusShape(s) && t.job.statuses == s.job.statuses + WrittenBy(a)
    requires Concluded(t.main) <==> Concluded(s.main) || Reports(a)
    requires Concluded(s.main) ==> !Reports(a) && WrittenBy(a) == []
    ensures StatusShape(t)
  {
  }

  lemma {:induction false} StatusAlong(c: Config, s: State, run: seq<Action>)
    requires Control(c, s) && StatusShape(s) && Legal(c, s, run)
    ensures var t := After(c, s, run);
      && StatusShape(t)
      && (Concluded(s.main) ==> t.job.statuses == s.job.statuses && !Writes(run))
      && (!Concluded(s.main) && Concluded(t.main) ==>
            (Writes(run) <==> t.job.statuses != [] && t.job.statuses[|t.job.statuses| - 1] == COMPLETED))
    decreases |run|
  {
    if run == [] {
    } else {
      var s' := Apply(c, s, run[0]);
      ControlPreserved(c, s, run[0]);
      StatusStep(c, s, run[0]);
      StatusShapeStep(s, s', run[0]);
      StatusAlong(c, s', run[1..]);
    }
  }

  lemma {:induction false} MarksAlong(c: Config, s: State, run: seq<Action>)
    requires Control(c, s) && Legal(c, s, run)
    ensures FAILED in After(c, s, run).job.statuses <==> FAILED in s.job.statuses || Marks(run)
    decreases |run|
  {
    if run == [] {
    } else {
      ControlPreserved(c, s, run[0]);
      StatusStep(c, s, run[0]);
      MarksAlong(c, Apply(c, s, run[0]), run[1..]);
    }
  }

  /** The status column: the last status written over the initial PROCESSING. */
  function Current(s: State): Status {
    if s.job.statuses == [] then PROCESSING else s.job.statuses[|s.job.statuses| - 1]
  }

  /** A finished job reads COMPLETED exactly when the final write reached the database, no matter how many
      copies failed before it, and FAILED exactly when that write was lost and some saver's FAILED write was not. */
  lemma FinalStatus(c: Config, seen: set<string>, run: seq<Action>)
    requires Legal(c, Init(c, seen), run) && Concluded(After(c, Init(c, seen), run).main)
    ensures var s := After(c, Init(c, seen), run);
      && (Current(s) == COMPLETED <==> Writes(run))
      && (Current(s) == FAILED <==> !Writes(run) && Marks(run))
  {
    InitControl(c, seen);
    StatusAlong(c, Init(c, seen), run);
    MarksAlong(c, Init(c, seen), run);
  }

  // ---- FAILED does not survive ------------------------------------------------------------------

  lemma {:induction false} RunAppend(c: Config, s: State, run: seq<Action>, a: Action)
    requires Legal(c, s, run) && Enabled(c, After(c, s, run), a)
    ensures Legal(c, s, run + [a]) && After(c, s, run + [a]) == Apply(c, After(c, s, run), a)
    decreases |run|
  {
    if run == [] {
      assert run + [a] == [a];
      assert [a][1..] == [];
    } else {
      assert (run + [a])[1..] == run[1..] + [a];
      RunAppend(c, Apply(c, s, run[0]), run[1..], a);
    }
  }

  /** The job acts alone. */
  predicate Own(run: seq<Action>) { forall i :: 0 <= i < |run| ==> !run[i].CancelJob? && !run[i].OtherInserts? }

  /** Extends a run by one action. */
  lemma Do(c: Config, init: State, run: seq<Action>, s: State, a: Action) returns (run': seq<Action>, s': State)
    requires Legal(c, init, run) && s == After(c, init, run) && Enabled(c, s, a)
    ensures run' == run + [a] && Legal(c, init, run') && s' == After(c, init, run') && s' == Apply(c, s, a)
    ensures Own(run) && !a.CancelJob? && !a.OtherInserts? ==> Own(run')
  {
    RunAppend(c, init, run, a);
    run', s' := run + [a], Apply(c, s, a);
  }

  const ONE_ROW: PacketRow := PacketRow(0, NoAddr, NoAddr, 0, 0, "TCP", 60, 0)

  /** One readable file with one packet, and one worker of each kind. */
  function Small(): Config {
    Config(_ => FileData(true, true, "sum", true, [Packet(ONE_ROW)]), ["a.pcap"], 1, 1, 1)
  }

  predicate Untouched(s: State) {
    && s.seen == {"sum"} && s.hist.accepted == ["a.pcap"] && !s.cancelled
    && s.main == MCollect(0, 0) && s.job == JobRecord([], 0, []) && s.counts == Chan([], 1, false)
  }

  /** The job up to the point where the only file has been accepted. */
  lemma SmallRunAccepts() returns (run: seq<Action>, s: State)
    ensures Legal(Small(), Init(Small(), {}), run) && Own(run) && s == After(Small(), Init(Small(), {}), run)
    ensures Untouched(s) && s.valid.buf == ["a.pcap"] && s.readers == [RRecv] && s.savers == [Idle()]
    ensures s.stream == Chan([], STREAM_CAPACITY, false)
  {
    var c := Small();
    run, s := [], Init(c, {});
    run, s := Do(c, Init(c, {}), run, s, Main(Feed));
    run, s := Do(c, Init(c, {}), run, s, Main(CloseFiles));
    run, s := Do(c, Init(c, {}), run, s, Main(Launch));
    run, s := Do(c, Init(c, {}), run, s, Check(0, TakeFile("a.pcap")));
    run, s := Do(c, Init(c, {}), run, s, Check(0, Inserted));
    run, s := Do(c, Init(c, {}), run, s, Check(0, Handed));
  }

  /** The job up to the point where the reader has the packet in its batch. */
  lemma SmallRunDecodes() returns (run: seq<Action>, s: State)
    ensures Legal(Small(), Init(Small(), {}), run) && Own(run) && s == After(Small(), Init(Small(), {}), run)
    ensures Untouched(s) && s.readers == [RRead("a.pcap", 1, [ONE_ROW])] && s.savers == [Idle()]
    ensures s.stream == Chan([], STREAM_CAPACITY, false)
  {
    var c := Small();
    run, s := SmallRunAccepts();
    run, s := Do(c, Init(c, {}), run, s, Read(0, TakeValid("a.pcap")));
    run, s := Do(c, Init(c, {}), run, s, Read(0, Live));
    run, s := Do(c, Init(c, {}), run, s, Read(0, Opened));
    run, s := Do(c, Init(c, {}), run, s, Read(0, Live));
    run, s := Do(c, Init(c, {}), run, s, Read(0, Record));
    assert [] + [ONE_ROW] == [ONE_ROW];
  }

  /** The job up to the point where the only batch is in the saver's hands. */
  lemma SmallRunReads() returns (run: seq<Action>, s: State)
    ensures Legal(Small(), Init(Small(), {}), run) && Own(run) && s == After(Small(), Init(Small(), {}), run)
    ensures Untouched(s) && s.savers == [Saver(SWrite([ONE_ROW]), 0, MIN_BACKOFF)]
  {
    var c := Small();
    run, s := SmallRunDecodes();
    run, s := Do(c, Init(c, {}), run, s, Read(0, Record));
    run, s := Do(c, Init(c, {}), run, s, Read(0, Sent));
    run, s := Do(c, Init(c, {}), run, s, Save(0, TakeBatch([ONE_ROW])));
  }

  /** The job up to the point where the copy has failed and the saver has reported. */
  lemma SmallRunFails() returns (run: seq<Action>, s: State)
    ensures Legal(Small(), Init(Small(), {}), run) && Own(run) && s == After(Small(), Init(Small(), {}), run)
    ensures s.main == MCollect(0, 0) && s.job == JobRecord([], 0, [FAILED]) && s.counts.buf == [0]
    ensures s.seen == {"sum"} && s.hist.accepted == ["a.pcap"]
  {
    var c := Small();
    run, s := SmallRunReads();
    run, s := Do(c, Init(c, {}), run, s, Save(0, CopyFailed));
    run, s := Do(c, Init(c, {}), run, s, Save(0, FailWritten));
    run, s := Do(c, Init(c, {}), run, s, Save(0, Abort));
    run, s := Do(c, Init(c, {}), run, s, Save(0, Reported));
  }

  /** A job can lose every packet to a failed copy, have FAILED written, and still end as COMPLETED. */
  lemma FailedIsOverwritten() returns (run: seq<Action>)
    ensures Legal(Small(), Init(Small(), {}), run)
    ensures var s := After(Small(), Init(Small(), {}), run);
      && s.main.MReturn? && s.job.table == [] && FAILED in s.job.statuses && Current(s) == COMPLETED
      && s.seen == {"sum"} && s.hist.accepted == ["a.pcap"]
  {
    var c := Small();
    var s: State;
    run, s := SmallRunFails();
    run, s := Do(c, Init(c, {}), run, s, Main(Collect));
    run, s := Do(c, Init(c, {}), run, s, Main(CollectDone));
    run, s := Do(c, Init(c, {}), run, s, Main(CompletedWritten));
  }
}
