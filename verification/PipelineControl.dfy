/**
 Control of the pipeline, for any number of workers, any file list and any interleaving: the control
 invariant, no operation on a closed channel, no deadlock, termination, and who has finished when.
*/
module PipelineControl {
  import opened Capture
  import opened Aggregates
  import opened Pipeline
  import opened PipelineFrames

  // ---- Counting over the pools ------------------------------------------------------------------

  function CheckerHolds(k: Checker): nat { if k.CCheck? || k.CSend? then 1 else 0 }

  function ReaderHolds(r: Reader): nat { if r.RRecv? || r.RDone? then 0 else 1 }

  function SaverDone(v: Saver): nat { if v.pc.SDone? then 1 else 0 }

  function CheckersHolding(ks: seq<Checker>): nat { Sum(ks, e => CheckerHolds(e)) }

  function ReadersHolding(rs: seq<Reader>): nat { Sum(rs, e => ReaderHolds(e)) }

  function DoneCount(vs: seq<Saver>): nat { Sum(vs, e => SaverDone(e)) }

  lemma DoneCountBound(vs: seq<Saver>)
    ensures DoneCount(vs) <= |vs|
    ensures DoneCount(vs) == |vs| ==> forall i :: 0 <= i < |vs| ==> vs[i].pc.SDone?
    ensures forall i :: 0 <= i < |vs| && !vs[i].pc.SDone? ==> DoneCount(vs) < |vs|
  {
    SumIndicators(vs, e => SaverDone(e));
    forall i | 0 <= i < |vs| ensures DoneCount(vs) == |vs| ==> SaverDone(vs[i]) == 1 { }
  }

  // ---- The control invariant --------------------------------------------------------------------

  function FedCount(c: Config, m: MainPc): nat { if m.MFeed? then m.i else |c.paths| }

  /** How many saver counts ProcessWithPool has received. */
  function Received(c: Config, m: MainPc): nat {
    if m.MCollect? then m.i else if Collected(m) then c.savers else 0
  }

  predicate Shape(c: Config, s: State) {
    && |s.checkers| == c.checkers && |s.readers| == c.readers && |s.savers| == c.savers
    && s.files.cap == |c.paths| && s.valid.cap == |c.paths|
    && |s.stream.buf| <= s.stream.cap == 100 && s.counts.cap == c.savers
    && (s.main.MFeed? ==> s.main.i <= |c.paths|)
    && (s.main.MCollect? ==> s.main.i <= c.savers)
  }

  predicate Closers(s: State) {
    && s.files.closed == Fed(s.main)
    && s.valid.closed == s.validCloser
    && s.stream.closed == s.streamCloser
    && !s.counts.closed
    && (s.validCloser ==> Fed(s.main) && CheckersDone(s))
    && (s.streamCloser ==> Launched(s.main) && ReadersDone(s))
    && (s.main.MDone? ==> s.cancelled)
  }

  predicate NotLaunched(s: State) {
    !Launched(s.main) ==>
      && (forall i :: 0 <= i < |s.readers| ==> s.readers[i].RRecv?)
      && (forall i :: 0 <= i < |s.savers| ==> s.savers[i] == Idle())
  }

  predicate Leaving(v: Saver) { v.pc.SExit? || v.pc.SDone? }

  /** Without cancellation a worker leaves only when its input is closed and empty. */
  predicate Orderly(s: State) {
    !s.cancelled ==>
      && (forall i :: 0 <= i < |s.checkers| && s.checkers[i].CDone? ==> Drained(s.files))
      && (forall i :: 0 <= i < |s.readers| && s.readers[i].RDone? ==> Drained(s.valid))
      && (forall i :: 0 <= i < |s.savers| && Leaving(s.savers[i]) ==> Drained(s.stream))
  }

  /** Every path that has been fed is in at most one place, or counted as progress. */
  predicate PathsBounded(c: Config, s: State) {
    |s.files.buf| + CheckersHolding(s.checkers) + |s.valid.buf| + ReadersHolding(s.readers) + s.job.filesRead
      <= FedCount(c, s.main)
  }

  predicate CountsMatch(c: Config, s: State) {
    DoneCount(s.savers) == Received(c, s.main) + |s.counts.buf|
  }

  predicate Control(c: Config, s: State) {
    Shape(c, s) && Closers(s) && NotLaunched(s) && Orderly(s) && PathsBounded(c, s) && CountsMatch(c, s)
  }

  lemma InitControl(c: Config, seen: set<string>)
    ensures Control(c, Init(c, seen))
  {
    var s := Init(c, seen);
    NobodyHolds(s.checkers, s.readers);
    NobodyDone(s.savers);
  }

  lemma NobodyHolds(ks: seq<Checker>, rs: seq<Reader>)
    requires forall i :: 0 <= i < |ks| ==> ks[i].CRecv?
    requires forall i :: 0 <= i < |rs| ==> rs[i].RRecv?
    ensures CheckersHolding(ks) == 0 && ReadersHolding(rs) == 0
  {
    SumConstant(ks, 0, e => CheckerHolds(e));
    SumConstant(rs, 0, e => ReaderHolds(e));
  }

  lemma NobodyDone(vs: seq<Saver>)
    requires forall i :: 0 <= i < |vs| ==> !vs[i].pc.SDone?
    ensures DoneCount(vs) == 0
  {
    SumConstant(vs, 0, e => SaverDone(e));
  }

  lemma EverybodyDone(vs: seq<Saver>)
    requires forall i :: 0 <= i < |vs| ==> vs[i].pc.SDone?
    ensures DoneCount(vs) == |vs|
  {
    SumConstant(vs, 1, e => SaverDone(e));
  }

  lemma CheckerControl(c: Config, s: State, w: nat, l: CheckLabel)
    requires Control(c, s) && Enabled(c, s, Check(w, l))
    ensures Control(c, Apply(c, s, Check(w, l)))
  {
    CheckFrame(c, s, w, l);
    SumUpdate(s.checkers, w, CheckerNext(c, s.checkers[w], l), e => CheckerHolds(e));
  }

  lemma ReaderControl(c: Config, s: State, w: nat, l: ReadLabel)
    requires Control(c, s) && Enabled(c, s, Read(w, l))
    ensures Control(c, Apply(c, s, Read(w, l)))
  {
    ReadFrame(c, s, w, l);
    SumUpdate(s.readers, w, ReaderNext(c, s.readers[w], l), e => ReaderHolds(e));
  }

  lemma SaverControl(c: Config, s: State, w: nat, l: SaveLabel)
    requires Control(c, s) && Enabled(c, s, Save(w, l))
    ensures Control(c, Apply(c, s, Save(w, l)))
  {
    SaveFrame(c, s, w, l);
    SumUpdate(s.savers, w, SaverNext(s.savers[w], l), e => SaverDone(e));
  }

  lemma MainControl(c: Config, s: State, l: MainLabel)
    requires Control(c, s) && Enabled(c, s, Main(l))
    ensures Control(c, Apply(c, s, Main(l)))
  {
    MainFrame(c, s, l);
  }

  lemma OtherControl(c: Config, s: State, a: Action)
    requires Control(c, s) && Enabled(c, s, a) && !a.Main? && !a.Check? && !a.Read? && !a.Save?
    ensures Control(c, Apply(c, s, a))
  {
    OutsideFrame(c, s, a);
  }

  lemma ControlPreserved(c: Config, s: State, a: Action)
    requires Control(c, s) && Enabled(c, s, a)
    ensures Control(c, Apply(c, s, a))
  {
    match a
    case Check(w, l) => CheckerControl(c, s, w, l);
    case Read(w, l) => ReaderControl(c, s, w, l);
    case Save(w, l) => SaverControl(c, s, w, l);
    case Main(l) => MainControl(c, s, l);
    case _ => OtherControl(c, s, a);
  }

  lemma {:induction false} ControlAlong(c: Config, s: State, run: seq<Action>)
    requires Control(c, s) && Legal(c, s, run)
    ensures Control(c, After(c, s, run))
    decreases |run|
  {
    if run == [] {
    } else {
      ControlPreserved(c, s, run[0]);
      ControlAlong(c, Apply(c, s, run[0]), run[1..]);
    }
  }

  lemma ReachableControl(c: Config, seen: set<string>, s: State)
    requires Reachable(c, seen, s)
    ensures Control(c, s)
  {
    var run :| Legal(c, Init(c, seen), run) && After(c, Init(c, seen), run) == s;
    InitControl(c, seen);
    ControlAlong(c, Init(c, seen), run);
  }

  // ---- Channels ---------------------------------------------------------------------------------

  /** No goroutine ever sends on, or closes, a closed channel. */
  lemma NoPanic(c: Config, seen: set<string>, s: State, a: Action)
    requires Reachable(c, seen, s) && Enabled(c, s, a)
    ensures !Panics(c, s, a)
  {
    ReachableControl(c, seen, s);
  }

  /** The sends that the code relies on never blocking: feeding, handing on, and reporting a count. */
  lemma BuffersSuffice(c: Config, seen: set<string>, s: State)
    requires Reachable(c, seen, s)
    ensures s.main.MFeed? && s.main.i < |c.paths| ==> |s.files.buf| < s.files.cap
    ensures forall w :: 0 <= w < |s.checkers| && s.checkers[w].CSend? ==> |s.valid.buf| < s.valid.cap
    ensures forall w :: 0 <= w < |s.savers| && s.savers[w].pc.SExit? ==> |s.counts.buf| < s.counts.cap
    ensures |s.files.buf| <= s.files.cap && |s.valid.buf| <= s.valid.cap && |s.counts.buf| <= s.counts.cap
  {
    ReachableControl(c, seen, s);
    HoldersCounted(c, s);
    DoneCountBound(s.savers);
  }

  lemma HoldersCounted(c: Config, s: State)
    requires Control(c, s)
    ensures forall w :: 0 <= w < |s.checkers| && s.checkers[w].CSend? ==> |s.valid.buf| < |c.paths|
  {
    forall w | 0 <= w < |s.checkers| && s.checkers[w].CSend?
      ensures |s.valid.buf| < |c.paths|
    {
      SumUpdate(s.checkers, w, CRecv, e => CheckerHolds(e));
    }
  }

  // ---- Deadlock freedom -------------------------------------------------------------------------

  /** A failing database call, or a move of the environment. */
  predicate Faulty(a: Action) {
    match a
    case Main(CompletedLost) => true
    case Check(_, InsertError) => true
    case Read(_, ProgressFailed) => true
    case Save(_, CopyFailed) => true
    case Save(_, FailLost) => true
    case CancelJob => true
    case OtherInserts(_) => true
    case _ => false
  }

  predicate Environment(a: Action) { a.CancelJob? || a.OtherInserts? }

  lemma CheckerMoves(c: Config, s: State, w: nat) returns (a: Action)
    requires Control(c, s) && Fed(s.main) && w < |s.checkers| && !s.checkers[w].CDone?
    ensures Enabled(c, s, a) && !Environment(a) && (Faulty(a) ==> s.cancelled)
  {
    HoldersCounted(c, s);
    var k := s.checkers[w];
    match k
    case CRecv => a := Check(w, if s.files.buf == [] then FilesClosed else TakeFile(s.files.buf[0]));
    case CSend(_) => a := Check(w, Handed);
    case CCheck(path) =>
      var f := c.disk(path);
      a := Check(w, if !(f.openable && f.hashable) then Unhashed
                    else if s.cancelled then InsertError
                    else if f.checksum in s.seen then Duplicate else Inserted);
  }

  lemma SaverMoves(c: Config, s: State, w: nat) returns (a: Action)
    requires Control(c, s) && Launched(s.main) && w < |s.savers| && !s.savers[w].pc.SDone?
    requires s.savers[w].pc.SWait? ==> s.stream.buf != [] || s.stream.closed || s.cancelled
    ensures Enabled(c, s, a) && !Environment(a) && (Faulty(a) ==> s.cancelled)
  {
    DoneCountBound(s.savers);
    match s.savers[w].pc
    case SWait =>
      a := Save(w, if s.cancelled then Stop else if s.stream.buf == [] then StreamClosed
          else TakeBatch(s.stream.buf[0]));
    case SWrite(batch) => a := Save(w, if s.cancelled && batch != [] then CopyFailed else CopyOk(false));
    case SMark(_) => a := Save(w, if s.cancelled then FailLost else FailWritten);
    case SAbort(_) => a := Save(w, Abort);
    case STally(_, _) => a := Save(w, Tallied);
    case SRest => a := Save(w, Rested);
    case SExit => a := Save(w, Reported);
  }

  /** A reader can move unless it waits at an open empty `validFiles`, or at a full stream. */
  lemma ReaderMoves(c: Config, s: State, w: nat) returns (a: Action)
    requires Control(c, s) && Launched(s.main) && w < |s.readers| && !s.readers[w].RDone?
    requires s.readers[w].RRecv? ==> s.valid.buf != [] || s.valid.closed
    requires s.readers[w].RSend? ==> s.cancelled || |s.stream.buf| < s.stream.cap
    ensures Enabled(c, s, a) && !Environment(a) && (Faulty(a) ==> s.cancelled)
  {
    match s.readers[w]
    case RRecv => a := Read(w, if s.valid.buf == [] then ValidClosed else TakeValid(s.valid.buf[0]));
    case RCheck(_) => a := Read(w, if s.cancelled then Cancelled else Live);
    case ROpen(path) => a := Read(w, if Readable(c.disk(path)) then Opened else OpenFailed);
    case RPoll(_, _) => a := Read(w, if s.cancelled then Cancelled else Live);
    case RRead(_, _, _) => a := Read(w, Record);
    case RSend(_, _, _, _) => a := Read(w, if s.cancelled then SendCancelled else Sent);
    case RCount(_, _, _, _) => a := Read(w, Counted);
    case RProgress(_) => a := Read(w, if s.cancelled then ProgressFailed else ProgressOk);
  }

  lemma MainMoves(c: Config, s: State) returns (a: Action)
    requires Control(c, s) && !s.main.MDone?
    requires s.main.MCollect? && s.main.i < c.savers ==> s.counts.buf != []
    ensures Enabled(c, s, a) && !Environment(a) && !Faulty(a)
  {
    match s.main
    case MFeed(i) => a := Main(if i < |c.paths| then Feed else CloseFiles);
    case MLaunch => a := Main(Launch);
    case MCollect(i, _) => a := Main(if i < c.savers then Collect else CollectDone);
    case MReport(_) => a := Main(CompletedWritten);
    case MReturn(_) => a := Main(Return);
  }

  /** A worker that has not finished, if any. */
  lemma Stragglers(s: State) returns (k: nat, r: nat, v: nat)
    ensures (k < |s.checkers| && !s.checkers[k].CDone?) || CheckersDone(s)
    ensures (r < |s.readers| && !s.readers[r].RDone?) || ReadersDone(s)
    ensures (v < |s.savers| && !s.savers[v].pc.SDone?) || SaversDone(s)
  {
    if !CheckersDone(s) { var i :| 0 <= i < |s.checkers| && !s.checkers[i].CDone?; k := i; } else { k := 0; }
    if !ReadersDone(s) { var i :| 0 <= i < |s.readers| && !s.readers[i].RDone?; r := i; } else { r := 0; }
    if !SaversDone(s) { var i :| 0 <= i < |s.savers| && !s.savers[i].pc.SDone?; v := i; } else { v := 0; }
  }

  /** When every saver is done, ProcessWithPool can go on. */
  lemma DoneMainMoves(c: Config, s: State) returns (a: Action)
    requires Control(c, s) && !s.main.MDone? && SaversDone(s)
    ensures Enabled(c, s, a) && !Environment(a) && !Faulty(a)
  {
    EverybodyDone(s.savers);
    a := MainMoves(c, s);
  }

  /** In every reachable state that is not final some goroutine can move, and without cancellation
      it can do so without a database call failing. */
  lemma NoDeadlock(c: Config, seen: set<string>, s: State) returns (a: Action)
    requires Reachable(c, seen, s) && !Final(s)
    ensures Enabled(c, s, a) && !Environment(a) && (Faulty(a) ==> s.cancelled)
  {
    ReachableControl(c, seen, s);
    var k, r, v := Stragglers(s);
    if !Launched(s.main) {
      a := MainMoves(c, s);
    } else if !CheckersDone(s) {
      a := CheckerMoves(c, s, k);
    } else if !s.validCloser {
      a := CloseValid;
    } else if !ReadersDone(s) {
      if s.readers[r].RSend? && !s.cancelled && |s.stream.buf| >= s.stream.cap {
        if SaversDone(s) {
          a := DoneMainMoves(c, s);
        } else {
          a := SaverMoves(c, s, v);
        }
      } else {
        a := ReaderMoves(c, s, r);
      }
    } else if !s.streamCloser {
      a := CloseStream;
    } else if !SaversDone(s) {
      a := SaverMoves(c, s, v);
    } else {
      a := DoneMainMoves(c, s);
    }
  }
}
