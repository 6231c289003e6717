/**
 Where the rows are: conservation in every reachable state, what the table holds when COMPLETED is
 written, the batching of each file, and what a counted file means. Multisets are compared row by row.
*/
module PipelineRows {
  import opened Capture
  import opened Aggregates
  import opened Pipeline
  import opened PipelineFrames

  type Row = PacketRow

  // ---- Rows held by the workers -----------------------------------------------------------------

  function BatchOf(r: Reader): seq<Row> { if r.RRead? || r.RSend? then r.batch else [] }

  function HeldBy(v: Saver): seq<Row> { if v.pc.SWrite? || v.pc.SMark? || v.pc.SAbort? then v.pc.batch else [] }

  /** The rows of a path that a checksum worker has accepted but not handed on. */
  function PendingAt(c: Config, k: Checker): seq<Row> { if k.CSend? then FileRows(c.disk(k.path)) else [] }

  function AllRows(c: Config, paths: seq<Path>): seq<Row> {
    if paths == [] then [] else FileRows(c.disk(paths[0])) + AllRows(c, paths[1..])
  }

  /** The rows of its current file that a reader has already put on the stream. */
  function SentOf(c: Config, r: Reader): seq<Row> {
    match r
    case RPoll(path, pos) => SentPrefix(c.disk(path), pos, 0)
    case RRead(path, pos, batch) => SentPrefix(c.disk(path), pos, |batch|)
    case RSend(path, pos, batch, _) => SentPrefix(c.disk(path), pos, |batch|)
    case RCount(path, pos, _, _) => SentPrefix(c.disk(path), pos, 0)
    case RProgress(path) => FileRows(c.disk(path))
    case _ => []
  }

  function SentPrefix(f: FileData, pos: nat, waiting: nat): seq<Row> {
    AllBut(FileRows(f), |RowsFrom(f, pos)| + waiting)
  }

  function AllBut(all: seq<Row>, n: nat): seq<Row> {
    if n <= |all| then all[..|all| - n] else []
  }

  // How often a row x occurs, summed over a pool.
  function Batched(rs: seq<Reader>, x: Row): nat { Sum(rs, e => Occ(BatchOf(e), x)) }

  function Undecodeds(c: Config, rs: seq<Reader>, x: Row): nat { Sum(rs, e => Occ(Undecoded(c, e), x)) }

  function SentSoFar(c: Config, rs: seq<Reader>, x: Row): nat { Sum(rs, e => Occ(SentOf(c, e), x)) }

  function Held(vs: seq<Saver>, x: Row): nat { Sum(vs, e => Occ(HeldBy(e), x)) }

  function Pending(c: Config, ks: seq<Checker>, x: Row): nat { Sum(ks, e => Occ(PendingAt(c, e), x)) }

  lemma {:induction false} AllRowsAppend(c: Config, paths: seq<Path>, p: Path)
    ensures AllRows(c, paths + [p]) == AllRows(c, paths) + FileRows(c.disk(p))
  {
    if paths == [] {
      assert (paths + [p])[1..] == [];
      assert AllRows(c, []) == [];
    } else {
      assert (paths + [p])[1..] == paths[1..] + [p];
      AllRowsAppend(c, paths[1..], p);
    }
  }

  // ---- Batching of one file ---------------------------------------------------------------------

  /** The rows of a file split into whole batches already sent, the current batch, and the rest. */
  predicate SplitFile(f: FileData, pos: nat, batch: seq<Row>) {
    Readable(f) && Tail(FileRows(f), batch + RowsFrom(f, pos))
  }

  /** What remains after whole batches have been taken from the front. */
  predicate Tail(all: seq<Row>, tail: seq<Row>) {
    |tail| <= |all| && all[|all| - |tail|..] == tail && (|all| - |tail|) % BATCH_LIMIT == 0
  }

  /** Taking another whole batch leaves a tail again, and extends what was taken by that batch. */
  lemma TailStep(all: seq<Row>, batch: seq<Row>, rest: seq<Row>)
    requires Tail(all, batch + rest)
    ensures |batch| == BATCH_LIMIT ==> Tail(all, rest)
    ensures AllBut(all, |rest|) == AllBut(all, |rest| + |batch|) + batch
  {
    var k := |all| - |rest| - |batch|;
    assert all[k..] == batch + rest;
    assert all[k..][|batch|..] == rest;
    assert all[k + |batch|..] == all[k..][|batch|..];
    assert all[..k + |batch|] == all[..k] + all[k..][..|batch|];
    if |batch| == BATCH_LIMIT { assert |all| - |rest| == k + BATCH_LIMIT; }
  }

  /** What holds of a reader between any two of its steps. */
  predicate ReaderOk(c: Config, r: Reader) {
    match r
    case RPoll(path, pos) => SplitFile(c.disk(path), pos, [])
    case RRead(path, pos, batch) => SplitFile(c.disk(path), pos, batch) && |batch| < BATCH_LIMIT
    case RSend(path, pos, batch, last) =>
      && SplitFile(c.disk(path), pos, batch)
      && 0 < |batch| <= BATCH_LIMIT
      && (if last then RowsFrom(c.disk(path), pos) == [] else |batch| == BATCH_LIMIT)
    case RCount(path, pos, n, last) =>
      && 0 < n <= BATCH_LIMIT
      && (if last then Readable(c.disk(path)) && RowsFrom(c.disk(path), pos) == []
          else SplitFile(c.disk(path), pos, []))
    case RProgress(path) => Readable(c.disk(path))
    case _ => true
  }

  /** A record moves at most one row from the undecoded part of the file to the batch. */
  lemma RecordMoves(f: FileData, path: Path, pos: nat, batch: seq<Row>)
    requires |batch| < BATCH_LIMIT
    ensures var r' := NextRecord(f, path, pos, batch);
      && (r'.RProgress? ==> batch == [] && RowsFrom(f, pos) == [])
      && (r'.RPoll? ==> batch == [] && RowsFrom(f, r'.pos) == RowsFrom(f, pos))
      && (r'.RRead? ==> |r'.batch| < BATCH_LIMIT)
      && (r'.RSend? ==> if r'.last then 0 < |r'.batch| < BATCH_LIMIT && RowsFrom(f, r'.pos) == []
          else |r'.batch| == BATCH_LIMIT)
      && (r'.RRead? || r'.RSend? ==> r'.batch + RowsFrom(f, r'.pos) == batch + RowsFrom(f, pos))
  {
    if pos < |f.events| {
      RowsFromStep(f, pos);
      if f.events[pos].Packet? {
        assert batch + RowsFrom(f, pos) == (batch + [f.events[pos].row]) + RowsFrom(f, pos + 1);
      }
    }
  }

  lemma RecordKeeps(c: Config, r: Reader)
    requires ReaderOk(c, r) && r.RRead?
    ensures ReaderOk(c, NextRecord(c.disk(r.path), r.path, r.pos, r.batch))
    ensures SentOf(c, NextRecord(c.disk(r.path), r.path, r.pos, r.batch)) == SentOf(c, r)
  {
    var f := c.disk(r.path);
    var r' := NextRecord(f, r.path, r.pos, r.batch);
    RecordMoves(f, r.path, r.pos, r.batch);
    if r'.RProgress? {
      assert FileRows(f)[..|FileRows(f)|] == FileRows(f);
    } else if r'.RPoll? {
      assert [] + RowsFrom(f, r'.pos) == r.batch + RowsFrom(f, r.pos);
    } else {
      assert |r'.batch + RowsFrom(f, r'.pos)| == |r.batch + RowsFrom(f, r.pos)|;
    }
  }

  lemma ReaderStepKeeps(c: Config, r: Reader, l: ReadLabel)
    requires ReaderOk(c, r) && ReaderCan(c, r, l)
    ensures ReaderOk(c, ReaderNext(c, r, l))
  {
    match l
    case Record => RecordKeeps(c, r);
    case Opened =>
      RowsFromStart(c.disk(r.path));
      assert [] + RowsFrom(c.disk(r.path), 0) == FileRows(c.disk(r.path));
    case Sent =>
      TailStep(FileRows(c.disk(r.path)), r.batch, RowsFrom(c.disk(r.path), r.pos));
      assert [] + RowsFrom(c.disk(r.path), r.pos) == RowsFrom(c.disk(r.path), r.pos);
    case _ =>
  }

  // ---- Conservation -----------------------------------------------------------------------------

  /** Every decoded row is in a reader's batch, was dropped by a reader, or was put on the stream. */
  predicate DecodedFlow(s: State, x: Row) {
    Occ(s.hist.decoded, x) == Batched(s.readers, x) + Occ(s.hist.unsent, x) + Occ(s.hist.sent, x)
  }

  /** Every row put on the stream is still there, with a saver, in the table, or lost in a failed copy. */
  predicate SentFlow(s: State, x: Row) {
    Occ(s.hist.sent, x) == Occ(Flatten(s.stream.buf), x) + Held(s.savers, x) + Occ(s.job.table, x)
        + Occ(s.hist.unsaved, x)
  }

  /** Every row of an accepted file is decoded, waits to be decoded, or is given up. */
  predicate AcceptedFlow(c: Config, s: State, x: Row) {
    Occ(AllRows(c, s.hist.accepted), x) ==
      Occ(s.hist.decoded, x) + Occ(s.hist.skipped, x)
      + Pending(c, s.checkers, x) + Occ(AllRows(c, s.valid.buf), x) + Undecodeds(c, s.readers, x)
  }

  /** All rows of a counted file were put on the stream, besides those of files in progress. */
  predicate CountedFlow(c: Config, s: State, x: Row) {
    Occ(AllRows(c, s.hist.counted), x) + SentSoFar(c, s.readers, x) <= Occ(s.hist.sent, x)
  }

  predicate ReadersOk(c: Config, s: State) { forall i :: 0 <= i < |s.readers| ==> ReaderOk(c, s.readers[i]) }

  predicate NothingLost(s: State) {
    !s.cancelled ==> s.hist.unsent == s.hist.unsaved == s.hist.skipped == []
  }

  predicate Flow(c: Config, s: State, x: Row) {
    DecodedFlow(s, x) && SentFlow(s, x) && AcceptedFlow(c, s, x) && CountedFlow(c, s, x)
  }

  lemma InitFlow(c: Config, seen: set<string>, x: Row)
    ensures ReadersOk(c, Init(c, seen)) && Flow(c, Init(c, seen), x) && NothingLost(Init(c, seen))
  {
    var s := Init(c, seen);
    var ks, rs, vs := s.checkers, s.readers, s.savers;
    SumConstant(rs, 0, e => Occ(BatchOf(e), x));
    SumConstant(rs, 0, e => Occ(Undecoded(c, e), x));
    SumConstant(rs, 0, e => Occ(SentOf(c, e), x));
    SumConstant(vs, 0, e => Occ(HeldBy(e), x));
    SumConstant(ks, 0, e => Occ(PendingAt(c, e), x));
  }

  lemma CheckerFlow(c: Config, s: State, w: nat, l: CheckLabel, x: Row)
    requires AcceptedFlow(c, s, x) && Enabled(c, s, Check(w, l))
    ensures AcceptedFlow(c, Apply(c, s, Check(w, l)), x)
  {
    CheckFrame(c, s, w, l);
    var k := s.checkers[w];
    SumUpdate(s.checkers, w, CheckerNext(c, k, l), e => Occ(PendingAt(c, e), x));
    match l
    case Inserted =>
      AllRowsAppend(c, s.hist.accepted, k.path);
      OccConcat(AllRows(c, s.hist.accepted), FileRows(c.disk(k.path)), x);
    case Handed =>
      AllRowsAppend(c, s.valid.buf, k.path);
      OccConcat(AllRows(c, s.valid.buf), FileRows(c.disk(k.path)), x);
    case HandCancelled => OccConcat(s.hist.skipped, FileRows(c.disk(k.path)), x);
    case _ =>
  }

  /** A record moves the decoded row, if any, from the undecoded part of the file to the batch. */
  lemma RecordFlow(c: Config, r: Reader)
    requires r.RRead?
    ensures var r' := NextRecord(c.disk(r.path), r.path, r.pos, r.batch);
      && BatchOf(r') == r.batch + DecodedRow(c, r)
      && Undecoded(c, r) == DecodedRow(c, r) + Undecoded(c, r')
  {
    var f := c.disk(r.path);
    if r.pos < |f.events| { RowsFromStep(f, r.pos); }
  }

  lemma ReaderDecodedFlow(c: Config, s: State, w: nat, l: ReadLabel, x: Row)
    requires DecodedFlow(s, x) && Enabled(c, s, Read(w, l))
    ensures DecodedFlow(Apply(c, s, Read(w, l)), x)
  {
    ReadFrame(c, s, w, l);
    var r := s.readers[w];
    SumUpdate(s.readers, w, ReaderNext(c, r, l), e => Occ(BatchOf(e), x));
    match l
    case Record =>
      RecordFlow(c, r);
      OccConcat(r.batch, DecodedRow(c, r), x);
      OccConcat(s.hist.decoded, DecodedRow(c, r), x);
    case Sent => OccConcat(s.hist.sent, r.batch, x);
    case SendCancelled => OccConcat(s.hist.unsent, r.batch, x);
    case _ =>
  }

  lemma ReaderSentFlow(c: Config, s: State, w: nat, l: ReadLabel, x: Row)
    requires SentFlow(s, x) && Enabled(c, s, Read(w, l))
    ensures SentFlow(Apply(c, s, Read(w, l)), x)
  {
    ReadFrame(c, s, w, l);
    var r := s.readers[w];
    if l.Sent? {
      FlattenAppend(s.stream.buf, r.batch);
      OccConcat(Flatten(s.stream.buf), r.batch, x);
      OccConcat(s.hist.sent, r.batch, x);
    }
  }

  /** Only a record, an abandoned file, or a new path changes the undecoded rows. */
  lemma UndecodedStep(c: Config, r: Reader, l: ReadLabel)
    requires ReaderOk(c, r) && ReaderCan(c, r, l)
    ensures match l
      case TakeValid(path) => Undecoded(c, r) == [] && Undecoded(c, ReaderNext(c, r, l)) == FileRows(c.disk(path))
      case Cancelled => Undecoded(c, ReaderNext(c, r, l)) == []
      case SendCancelled => Undecoded(c, ReaderNext(c, r, l)) == []
      case Record => Undecoded(c, r) == DecodedRow(c, r) + Undecoded(c, ReaderNext(c, r, l))
      case _ => Undecoded(c, r) == Undecoded(c, ReaderNext(c, r, l))
  {
    match l
    case Record => RecordFlow(c, r);
    case Opened => RowsFromStart(c.disk(r.path));
    case _ =>
  }

  lemma ReaderAcceptedFlow(c: Config, s: State, w: nat, l: ReadLabel, x: Row)
    requires AcceptedFlow(c, s, x) && Enabled(c, s, Read(w, l)) && ReaderOk(c, s.readers[w])
    ensures AcceptedFlow(c, Apply(c, s, Read(w, l)), x)
  {
    ReadFrame(c, s, w, l);
    var r := s.readers[w];
    SumUpdate(s.readers, w, ReaderNext(c, r, l), e => Occ(Undecoded(c, e), x));
    UndecodedStep(c, r, l);
    match l
    case TakeValid(path) =>
      assert AllRows(c, s.valid.buf) == FileRows(c.disk(path)) + AllRows(c, s.valid.buf[1..]);
      OccConcat(FileRows(c.disk(path)), AllRows(c, s.valid.buf[1..]), x);
    case Record =>
      OccConcat(DecodedRow(c, r), Undecoded(c, ReaderNext(c, r, l)), x);
      OccConcat(s.hist.decoded, DecodedRow(c, r), x);
    case Cancelled => OccConcat(s.hist.skipped, Undecoded(c, r), x);
    case SendCancelled => OccConcat(s.hist.skipped, Undecoded(c, r), x);
    case _ =>
  }

  /** The sent prefix of the file grows by exactly the batch that is sent, and by nothing else. */
  lemma SentStep(c: Config, r: Reader, l: ReadLabel)
    requires ReaderOk(c, r) && ReaderCan(c, r, l)
    ensures l.Sent? ==> SentOf(c, ReaderNext(c, r, l)) == SentOf(c, r) + r.batch
    ensures l.ProgressOk? ==> SentOf(c, r) == FileRows(c.disk(r.path))
    ensures !l.Sent? ==> SentOf(c, ReaderNext(c, r, l)) == SentOf(c, r) || SentOf(c, ReaderNext(c, r, l)) == []
    ensures ReaderNext(c, r, l).RRecv? ==> SentOf(c, ReaderNext(c, r, l)) == []
  {
    match l
    case Opened => RowsFromStart(c.disk(r.path));
    case Record => RecordKeeps(c, r);
    case Sent => TailStep(FileRows(c.disk(r.path)), r.batch, RowsFrom(c.disk(r.path), r.pos));
    case Counted =>
      if r.last { assert FileRows(c.disk(r.path))[..|FileRows(c.disk(r.path))|] == FileRows(c.disk(r.path)); }
    case _ =>
  }

  lemma ReaderCountedFlow(c: Config, s: State, w: nat, l: ReadLabel, x: Row)
    requires CountedFlow(c, s, x) && Enabled(c, s, Read(w, l)) && ReaderOk(c, s.readers[w])
    ensures CountedFlow(c, Apply(c, s, Read(w, l)), x)
  {
    ReadFrame(c, s, w, l);
    var r := s.readers[w];
    SumUpdate(s.readers, w, ReaderNext(c, r, l), e => Occ(SentOf(c, e), x));
    SentStep(c, r, l);
    match l
    case Sent =>
      OccConcat(SentOf(c, r), r.batch, x);
      OccConcat(s.hist.sent, r.batch, x);
    case ProgressOk =>
      AllRowsAppend(c, s.hist.counted, r.path);
      OccConcat(AllRows(c, s.hist.counted), FileRows(c.disk(r.path)), x);
    case _ =>
  }

  lemma SaverFlow(c: Config, s: State, w: nat, l: SaveLabel, x: Row)
    requires SentFlow(s, x) && Enabled(c, s, Save(w, l))
    ensures SentFlow(Apply(c, s, Save(w, l)), x)
  {
    SaveFrame(c, s, w, l);
    var v := s.savers[w];
    SumUpdate(s.savers, w, SaverNext(v, l), e => Occ(HeldBy(e), x));
    match l
    case TakeBatch(batch) =>
      assert Flatten(s.stream.buf) == batch + Flatten(s.stream.buf[1..]);
      OccConcat(batch, Flatten(s.stream.buf[1..]), x);
    case CopyOk(_) => OccConcat(s.job.table, v.pc.batch, x);
    case Abort => OccConcat(s.hist.unsaved, v.pc.batch, x);
    case _ =>
  }

  lemma CheckerKeepsOthers(c: Config, s: State, w: nat, l: CheckLabel, x: Row)
    requires DecodedFlow(s, x) && SentFlow(s, x) && CountedFlow(c, s, x) && Enabled(c, s, Check(w, l))
    ensures var s' := Apply(c, s, Check(w, l)); DecodedFlow(s', x) && SentFlow(s', x) && CountedFlow(c, s', x)
  {
    CheckFrame(c, s, w, l);
  }

  lemma SaverKeepsOthers(c: Config, s: State, w: nat, l: SaveLabel, x: Row)
    requires DecodedFlow(s, x) && AcceptedFlow(c, s, x) && CountedFlow(c, s, x) && Enabled(c, s, Save(w, l))
    ensures var s' := Apply(c, s, Save(w, l)); DecodedFlow(s', x) && AcceptedFlow(c, s', x) && CountedFlow(c, s', x)
  {
    SaveFrame(c, s, w, l);
  }

  lemma MainFlow(c: Config, s: State, l: MainLabel, x: Row)
    requires Flow(c, s, x) && Enabled(c, s, Main(l))
    ensures Flow(c, Apply(c, s, Main(l)), x)
  {
    MainFrame(c, s, l);
  }

  lemma OtherFlow(c: Config, s: State, a: Action, x: Row)
    requires Flow(c, s, x) && Enabled(c, s, a) && !a.Main? && !a.Check? && !a.Read? && !a.Save?
    ensures Flow(c, Apply(c, s, a), x)
  {
    OutsideFrame(c, s, a);
  }

  lemma FlowPreserved(c: Config, s: State, a: Action, x: Row)
    requires ReadersOk(c, s) && Flow(c, s, x) && Enabled(c, s, a)
    ensures Flow(c, Apply(c, s, a), x)
  {
    match a
    case Check(w, l) =>
      CheckerFlow(c, s, w, l, x);
      CheckerKeepsOthers(c, s, w, l, x);
    case Read(w, l) =>
      ReaderDecodedFlow(c, s, w, l, x);
      ReaderSentFlow(c, s, w, l, x);
      ReaderAcceptedFlow(c, s, w, l, x);
      ReaderCountedFlow(c, s, w, l, x);
    case Save(w, l) =>
      SaverFlow(c, s, w, l, x);
      SaverKeepsOthers(c, s, w, l, x);
    case Main(l) => MainFlow(c, s, l, x);
    case _ => OtherFlow(c, s, a, x);
  }

  lemma ReadersOkPreserved(c: Config, s: State, a: Action)
    requires ReadersOk(c, s) && Enabled(c, s, a)
    ensures ReadersOk(c, Apply(c, s, a))
  {
    if a.Read? { ReaderStepKeeps(c, s.readers[a.w], a.r); }
  }

  lemma LossPreserved(c: Config, s: State, a: Action)
    requires NothingLost(s) && Enabled(c, s, a)
    ensures NothingLost(Apply(c, s, a))
  {
    match a
    case Save(w, l) => SaveFrame(c, s, w, l);
    case Read(w, l) => ReadFrame(c, s, w, l);
    case Check(w, l) => CheckFrame(c, s, w, l);
    case Main(l) => MainFrame(c, s, l);
    case _ => OutsideFrame(c, s, a);
  }

  lemma {:induction false} FlowAlong(c: Config, s: State, run: seq<Action>, x: Row)
    requires ReadersOk(c, s) && Flow(c, s, x) && NothingLost(s) && Legal(c, s, run)
    ensures var t := After(c, s, run); ReadersOk(c, t) && Flow(c, t, x) && NothingLost(t)
    decreases |run|
  {
    if run == [] {
    } else {
      ReadersOkPreserved(c, s, run[0]);
      FlowPreserved(c, s, run[0], x);
      LossPreserved(c, s, run[0]);
      FlowAlong(c, Apply(c, s, run[0]), run[1..], x);
    }
  }

  lemma ReachableFlow(c: Config, seen: set<string>, s: State, x: Row)
    requires Reachable(c, seen, s)
    ensures ReadersOk(c, s) && Flow(c, s, x) && NothingLost(s)
  {
    var run :| Legal(c, Init(c, seen), run) && After(c, Init(c, seen), run) == s;
    InitFlow(c, seen, x);
    FlowAlong(c, Init(c, seen), run, x);
  }

  /** Batching: in every reachable state each reader has sent a multiple of 500 rows of its file, in order, from
      the front; the batch it offers next is of 500 rows, or is the rest of the file and not empty. */
  lemma ReadersBatch(c: Config, seen: set<string>, s: State, w: nat)
    requires Reachable(c, seen, s) && w < |s.readers|
    ensures var r := s.readers[w];
      && (r.RRead? || r.RSend? ==>
            && SentOf(c, r) + r.batch + RowsFrom(c.disk(r.path), r.pos) == FileRows(c.disk(r.path))
            && |SentOf(c, r)| % 500 == 0)
      && (r.RSend? ==> if r.last then 0 < |r.batch| <= 500 && RowsFrom(c.disk(r.path), r.pos) == []
          else |r.batch| == 500)
  {
    ReachableFlow(c, seen, s, PacketRow(0, NoAddr, NoAddr, 0, 0, "", 0, 0));
    ReaderBatch(c, s.readers[w]);
  }

  lemma ReaderBatch(c: Config, r: Reader)
    requires ReaderOk(c, r)
    ensures r.RRead? || r.RSend? ==>
        && SentOf(c, r) + r.batch + RowsFrom(c.disk(r.path), r.pos) == FileRows(c.disk(r.path))
        && |SentOf(c, r)| % BATCH_LIMIT == 0
    ensures r.RSend? ==> if r.last then 0 < |r.batch| <= BATCH_LIMIT && RowsFrom(c.disk(r.path), r.pos) == []
        else |r.batch| == BATCH_LIMIT
  {
    if r.RRead? || r.RSend? {
      SplitJoins(FileRows(c.disk(r.path)), r.batch, RowsFrom(c.disk(r.path), r.pos));
    }
  }

  /** What was sent, the batch and the rest make up the file. */
  lemma SplitJoins(all: seq<Row>, batch: seq<Row>, rest: seq<Row>)
    requires Tail(all, batch + rest)
    ensures var sent := AllBut(all, |rest| + |batch|); sent + batch + rest == all && |sent| % BATCH_LIMIT == 0
  {
    var tail := batch + rest;
    var sent := AllBut(all, |rest| + |batch|);
    assert |tail| == |rest| + |batch|;
    assert all == all[..|all| - |tail|] + all[|all| - |tail|..];
    assert sent + batch + rest == sent + tail;
  }

  /** Conservation: in every reachable state of every interleaving, each row decoded so far is in exactly one
      of the readers' batches, the stream, the savers' hands, the table, or the rows dropped, and rows
      are dropped only after cancellation. */
  lemma Conservation(c: Config, seen: set<string>, s: State, x: Row)
    requires Reachable(c, seen, s)
    ensures multiset(s.hist.decoded)[x] ==
              Batched(s.readers, x) + multiset(Flatten(s.stream.buf))[x] + Held(s.savers, x)
              + multiset(s.job.table)[x] + multiset(s.hist.unsent + s.hist.unsaved)[x]
    ensures !s.cancelled ==> s.hist.unsent + s.hist.unsaved == []
  {
    ReachableFlow(c, seen, s, x);
    OccMultiset(s.hist.decoded, x);
    OccMultiset(Flatten(s.stream.buf), x);
    OccMultiset(s.job.table, x);
    OccConcat(s.hist.unsent, s.hist.unsaved, x);
    OccMultiset(s.hist.unsent + s.hist.unsaved, x);
  }

  /** The table never holds a row more often than the accepted files do, even in cancelled runs. */
  lemma TableWithinAccepted(c: Config, seen: set<string>, s: State)
    requires Reachable(c, seen, s)
    ensures multiset(s.job.table) <= multiset(AllRows(c, s.hist.accepted))
  {
    forall x: Row
      ensures multiset(s.job.table)[x] <= multiset(AllRows(c, s.hist.accepted))[x]
    {
      ReachableFlow(c, seen, s, x);
      OccMultiset(s.job.table, x);
      OccMultiset(AllRows(c, s.hist.accepted), x);
    }
  }

  /** Every row of every file counted as progress was put on the stream. */
  lemma CountedFilesWereSent(c: Config, seen: set<string>, s: State)
    requires Reachable(c, seen, s)
    ensures multiset(AllRows(c, s.hist.counted)) <= multiset(s.hist.sent)
  {
    forall x: Row
      ensures multiset(AllRows(c, s.hist.counted))[x] <= multiset(s.hist.sent)[x]
    {
      ReachableFlow(c, seen, s, x);
      OccMultiset(AllRows(c, s.hist.counted), x);
      OccMultiset(s.hist.sent, x);
    }
  }

  // ---- Files that are no captures ---------------------------------------------------------------

  /** Every counted file can be opened and has a pcap header. */
  ghost predicate CountedOpen(c: Config, s: State) {
    forall p :: p in s.hist.counted ==> c.disk(p).openable && c.disk(p).header
  }

  lemma ReadCounts(c: Config, s: State, w: nat, l: ReadLabel)
    requires Enabled(c, s, Read(w, l))
    ensures Apply(c, s, Read(w, l)).hist.counted ==
      s.hist.counted + if l.ProgressOk? then [s.readers[w].path] else []
  {
  }

  lemma CountedOpenStep(c: Config, s: State, a: Action)
    requires CountedOpen(c, s) && ReadersOk(c, s) && Enabled(c, s, a)
    ensures CountedOpen(c, Apply(c, s, a))
  {
    match a
    case Read(w, l) =>
      assert ReaderOk(c, s.readers[w]);
      ReadCounts(c, s, w, l);
    case Save(w, l) => SaveFrame(c, s, w, l);
    case Check(w, l) => CheckFrame(c, s, w, l);
    case Main(l) => MainFrame(c, s, l);
    case _ => OutsideFrame(c, s, a);
  }

  lemma {:induction false} CountedOpenAlong(c: Config, s: State, run: seq<Action>)
    requires CountedOpen(c, s) && ReadersOk(c, s) && Legal(c, s, run)
    ensures CountedOpen(c, After(c, s, run))
    decreases |run|
  {
    if run == [] {
    } else {
      CountedOpenStep(c, s, run[0]);
      ReadersOkPreserved(c, s, run[0]);
      CountedOpenAlong(c, Apply(c, s, run[0]), run[1..]);
    }
  }

  /** The row is a packet of a file that can be opened and has a pcap header. */
  predicate PacketOf(c: Config, p: Path, x: Row) {
    c.disk(p).openable && c.disk(p).header && x in Decode(c.disk(p).events)
  }

  lemma {:induction false} RowHasFile(c: Config, paths: seq<Path>, x: Row) returns (p: Path)
    requires x in AllRows(c, paths)
    ensures p in paths && PacketOf(c, p, x)
  {
    if x in FileRows(c.disk(paths[0])) {
      p := paths[0];
    } else {
      p := RowHasFile(c, paths[1..], x);
    }
  }

  /** A file that cannot be opened or has no pcap header is never counted as progress and gives the table no row: in
      every reachable state each row of the table is a packet of an accepted file that has both. */
  lemma OnlyCapturesCount(c: Config, seen: set<string>, s: State)
    requires Reachable(c, seen, s)
    ensures forall p :: p in s.hist.counted ==> c.disk(p).openable && c.disk(p).header
    ensures forall x :: x in s.job.table ==> exists p :: p in s.hist.accepted && PacketOf(c, p, x)
  {
    var run :| Legal(c, Init(c, seen), run) && After(c, Init(c, seen), run) == s;
    CountedOpenAlong(c, Init(c, seen), run);
    TableWithinAccepted(c, seen, s);
    forall x | x in s.job.table ensures exists p :: p in s.hist.accepted && PacketOf(c, p, x) {
      assert x in multiset(s.job.table);
      var p := RowHasFile(c, s.hist.accepted, x);
    }
  }
}
