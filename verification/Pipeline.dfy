/**
 The extraction pipeline of one job as a transition system. Every goroutine has a program counter,
 every channel its contents, capacity and closed bit. An action names the goroutine that moves and how
 the nondeterminism of the move is resolved: which arm of a select is taken, and whether a database
 call succeeds. `Enabled` says when an action can happen, `Apply` what it does.
*/
module Pipeline {
  import opened Capture

  const BATCH_LIMIT: nat := 500
  const STREAM_CAPACITY: nat := 100
  const MIN_BACKOFF: nat := 25
  const MAX_BACKOFF: nat := 3000
  const MULTIPLIER: nat := 3

  datatype Config = Config(disk: Path -> FileData, paths: seq<Path>, checkers: nat, readers: nat, savers: nat)

  datatype Chan<T> = Chan(buf: seq<T>, cap: nat, closed: bool)

  datatype Checker =
    | CRecv                       // at the range over `files`
    | CCheck(path: Path)          // opening and hashing, then inserting the checksum
    | CSend(path: Path)           // at the select that hands the path on
    | CDone

  datatype CheckLabel =
    | TakeFile(path: Path) | FilesClosed
    | Unhashed | Inserted | Duplicate | InsertError
    | Handed | HandCancelled

  datatype Reader =
    | RRecv                                                 // at the range over `validFiles`
    | RCheck(path: Path)                                    // first look at the context
    | ROpen(path: Path)
    | RPoll(path: Path, pos: nat)                           // look at the context before an empty batch
    | RRead(path: Path, pos: nat, batch: seq<PacketRow>)    // reading the next record
    | RSend(path: Path, pos: nat, batch: seq<PacketRow>, last: bool)
    | RCount(path: Path, pos: nat, n: nat, last: bool)      // about to add to totalRead
    | RProgress(path: Path)                                 // about to call UpdateJobProgress
    | RDone

  datatype ReadLabel =
    | TakeValid(path: Path) | ValidClosed
    | Live | Cancelled
    | Opened | OpenFailed
    | Record
    | Sent | SendCancelled
    | Counted
    | ProgressOk | ProgressFailed

  datatype SaverPc =
    | SWait                                 // at the select over context and stream
    | SWrite(batch: seq<PacketRow>)         // in BulkDatabaseCopy
    | SMark(batch: seq<PacketRow>)          // copy failed, about to write FAILED
    | SAbort(batch: seq<PacketRow>)         // about to cancel
    | STally(n: nat, slow: bool)            // about to add to the counters
    | SRest                                 // throttled
    | SExit                                 // about to send its count
    | SDone

  datatype Saver = Saver(pc: SaverPc, saved: nat, backoff: nat)

  datatype SaveLabel =
    | TakeBatch(batch: seq<PacketRow>) | StreamClosed | Stop
    | CopyOk(slow: bool) | CopyFailed
    | FailWritten | FailLost | Abort
    | Tallied
    | Rested | RestCancelled
    | Reported

  datatype MainPc =
    | MFeed(i: nat) | MLaunch
    | MCollect(i: nat, total: nat)
    | MReport(total: nat)
    | MReturn(total: nat)
    | MDone(total: nat)

  datatype MainLabel = Feed | CloseFiles | Launch | Collect | CollectDone | CompletedWritten | CompletedLost | Return

  datatype Status = PROCESSING | FAILED | COMPLETED

  /** The job's part of the database: the rows it copied, its progress column, and the statuses
      written over PROCESSING, oldest first. */
  datatype JobRecord = JobRecord(table: seq<PacketRow>, filesRead: nat, statuses: seq<Status>)

  /** What happened so far, kept to state conservation: paths whose checksum was inserted, paths counted
      as progress, rows decoded, rows put on the stream, rows a reader dropped from its batch, rows a
      saver lost in a failed copy, and rows of accepted files that will never be decoded. */
  datatype History = History(accepted: seq<Path>, counted: seq<Path>, decoded: seq<PacketRow>,
                             sent: seq<PacketRow>, unsent: seq<PacketRow>,
                             unsaved: seq<PacketRow>, skipped: seq<PacketRow>)

  datatype State = State(main: MainPc,
                         files: Chan<Path>, valid: Chan<Path>, stream: Chan<seq<PacketRow>>, counts: Chan<nat>,
                         validCloser: bool, streamCloser: bool, cancelled: bool,
                         checkers: seq<Checker>, readers: seq<Reader>, savers: seq<Saver>,
                         totalRead: nat, totalSaved: nat,
                         job: JobRecord, seen: set<string>, hist: History)

  datatype Action =
    | Main(m: MainLabel)
    | Check(w: nat, c: CheckLabel)
    | Read(w: nat, r: ReadLabel)
    | Save(w: nat, v: SaveLabel)
    | CloseValid                       // checksumWg.Wait returned
    | CloseStream                      // readerWg.Wait returned
    | CancelJob                        // the caller cancels the job's context
    | OtherInserts(sum: string)        // another job inserts a checksum

  function Idle(): Saver { Saver(SWait, 0, MIN_BACKOFF) }

  function Init(c: Config, seen: set<string>): State {
    State(MFeed(0),
          Chan([], |c.paths|, false), Chan([], |c.paths|, false), Chan([], STREAM_CAPACITY, false),
              Chan([], c.savers, false),
          false, false, false,
          seq(c.checkers, _ => CRecv), seq(c.readers, _ => RRecv), seq(c.savers, _ => Idle()),
          0, 0, JobRecord([], 0, []), seen,
          History([], [], [], [], [], [], []))
  }

  predicate Fed(m: MainPc) { !m.MFeed? }

  predicate Launched(m: MainPc) { Fed(m) && !m.MLaunch? }

  predicate Collected(m: MainPc) { m.MReport? || m.MReturn? || m.MDone? }

  predicate CheckersDone(s: State) { forall i :: 0 <= i < |s.checkers| ==> s.checkers[i].CDone? }

  predicate ReadersDone(s: State) { forall i :: 0 <= i < |s.readers| ==> s.readers[i].RDone? }

  predicate SaversDone(s: State) { forall i :: 0 <= i < |s.savers| ==> s.savers[i].pc.SDone? }

  function Push<T>(ch: Chan<T>, x: T): Chan<T> { ch.(buf := ch.buf + [x]) }

  function Pop<T>(ch: Chan<T>): Chan<T> { if ch.buf == [] then ch else ch.(buf := ch.buf[1..]) }

  function Close<T>(ch: Chan<T>): Chan<T> { ch.(closed := true) }

  predicate Drained<T>(ch: Chan<T>) { ch.closed && ch.buf == [] }

  // ---- Checksum workers -------------------------------------------------------------------------

  /** Program order of a checksum worker. */
  predicate CheckerCan(c: Config, k: Checker, l: CheckLabel) {
    match l
    case TakeFile(_) => k.CRecv?
    case FilesClosed => k.CRecv?
    case Unhashed => k.CCheck? && !(c.disk(k.path).openable && c.disk(k.path).hashable)
    case Inserted => k.CCheck? && c.disk(k.path).openable && c.disk(k.path).hashable
    case Duplicate => k.CCheck? && c.disk(k.path).openable && c.disk(k.path).hashable
    case InsertError => k.CCheck? && c.disk(k.path).openable && c.disk(k.path).hashable
    case Handed => k.CSend?
    case HandCancelled => k.CSend?
  }

  function CheckerNext(c: Config, k: Checker, l: CheckLabel): Checker
    requires CheckerCan(c, k, l)
  {
    match l
    case TakeFile(path) => CCheck(path)
    case FilesClosed => CDone
    case Inserted => CSend(k.path)
    case HandCancelled => CDone
    case _ => CRecv
  }

  /** What the shared state must offer. A call on a cancelled context cannot take effect. */
  predicate CheckerGuard(c: Config, s: State, k: Checker, l: CheckLabel)
    requires CheckerCan(c, k, l)
  {
    match l
    case TakeFile(path) => s.files.buf != [] && s.files.buf[0] == path
    case FilesClosed => Drained(s.files)
    case Inserted => !s.cancelled && c.disk(k.path).checksum !in s.seen
    case Duplicate => !s.cancelled && c.disk(k.path).checksum in s.seen
    case Handed => |s.valid.buf| < s.valid.cap
    case HandCancelled => s.cancelled
    case _ => true
  }

  function CheckerEffect(c: Config, s: State, k: Checker, l: CheckLabel): State
    requires CheckerCan(c, k, l)
  {
    match l
    case TakeFile(_) => s.(files := Pop(s.files))
    case Inserted =>
        s.(seen := s.seen + {c.disk(k.path).checksum}, hist := s.hist.(accepted := s.hist.accepted + [k.path]))
    case Handed => s.(valid := Push(s.valid, k.path))
    case HandCancelled => s.(hist := s.hist.(skipped := s.hist.skipped + FileRows(c.disk(k.path))))
    case _ => s
  }

  // ---- Readers ----------------------------------------------------------------------------------

  predicate ReaderCan(c: Config, r: Reader, l: ReadLabel) {
    match l
    case TakeValid(_) => r.RRecv?
    case ValidClosed => r.RRecv?
    case Live => r.RCheck? || r.RPoll?
    case Cancelled => r.RCheck? || r.RPoll?
    case Opened => r.ROpen? && Readable(c.disk(r.path))
    case OpenFailed => r.ROpen? && !Readable(c.disk(r.path))
    case Record => r.RRead?
    case Sent => r.RSend?
    case SendCancelled => r.RSend?
    case Counted => r.RCount?
    case ProgressOk => r.RProgress?
    case ProgressFailed => r.RProgress?
  }

  /** The step of the extraction loop for one call of ReadPacketData. */
  function NextRecord(f: FileData, path: Path, pos: nat, batch: seq<PacketRow>): Reader {
    if pos >= |f.events| || f.events[pos].Truncated? then
      if |batch| > 0 then RSend(path, pos, batch, true) else RProgress(path)
    else if f.events[pos].Corrupt? then
      if |batch| == 0 then RPoll(path, pos + 1) else RRead(path, pos + 1, batch)
    else
      var grown := batch + [f.events[pos].row];
      if |grown| >= BATCH_LIMIT then RSend(path, pos + 1, grown, false) else RRead(path, pos + 1, grown)
  }

  function ReaderNext(c: Config, r: Reader, l: ReadLabel): Reader
    requires ReaderCan(c, r, l)
  {
    match l
    case TakeValid(path) => RCheck(path)
    case ValidClosed => RDone
    case Live => if r.RCheck? then ROpen(r.path) else RRead(r.path, r.pos, [])
    case Cancelled => if r.RCheck? then RDone else RRecv
    case Opened => RPoll(r.path, 0)
    case OpenFailed => RRecv
    case Record => NextRecord(c.disk(r.path), r.path, r.pos, r.batch)
    case Sent => RCount(r.path, r.pos, |r.batch|, r.last)
    case SendCancelled => RRecv
    case Counted => if r.last then RProgress(r.path) else RPoll(r.path, r.pos)
    case ProgressOk => RRecv
    case ProgressFailed => RRecv
  }

  predicate ReaderGuard(c: Config, s: State, r: Reader, l: ReadLabel)
    requires ReaderCan(c, r, l)
  {
    match l
    case TakeValid(path) => s.valid.buf != [] && s.valid.buf[0] == path
    case ValidClosed => Drained(s.valid)
    case Live => !s.cancelled
    case Cancelled => s.cancelled
    case Sent => |s.stream.buf| < s.stream.cap
    case SendCancelled => s.cancelled
    case ProgressOk => !s.cancelled
    case _ => true
  }

  /** The row appended by a Record step, if any. */
  function DecodedRow(c: Config, r: Reader): seq<PacketRow> {
    if r.RRead? && r.pos < |c.disk(r.path).events| && c.disk(r.path).events[r.pos].Packet?
    then [c.disk(r.path).events[r.pos].row] else []
  }

  /** The rows of its current file that a reader has not decoded yet. */
  function Undecoded(c: Config, r: Reader): seq<PacketRow> {
    match r
    case RCheck(path) => FileRows(c.disk(path))
    case ROpen(path) => FileRows(c.disk(path))
    case RPoll(path, pos) => RowsFrom(c.disk(path), pos)
    case RRead(path, pos, _) => RowsFrom(c.disk(path), pos)
    case RSend(path, pos, _, _) => RowsFrom(c.disk(path), pos)
    case RCount(path, pos, _, _) => RowsFrom(c.disk(path), pos)
    case _ => []
  }

  function ReaderEffect(c: Config, s: State, r: Reader, l: ReadLabel): State
    requires ReaderCan(c, r, l)
  {
    match l
    case TakeValid(_) => s.(valid := Pop(s.valid))
    case Cancelled => s.(hist := s.hist.(skipped := s.hist.skipped + Undecoded(c, r)))
    case Record => s.(hist := s.hist.(decoded := s.hist.decoded + DecodedRow(c, r)))
    case Sent => s.(stream := Push(s.stream, r.batch), hist := s.hist.(sent := s.hist.sent + r.batch))
    case SendCancelled => s.(hist := s.hist.(unsent := s.hist.unsent + r.batch,
                                             skipped := s.hist.skipped + Undecoded(c, r)))
    case Counted => s.(totalRead := s.totalRead + r.n)
    case ProgressOk =>
        s.(job := s.job.(filesRead := s.job.filesRead + 1), hist := s.hist.(counted := s.hist.counted + [r.path]))
    case _ => s
  }

  // ---- Savers -----------------------------------------------------------------------------------

  predicate SaverCan(v: Saver, l: SaveLabel) {
    match l
    case TakeBatch(_) => v.pc.SWait?
    case StreamClosed => v.pc.SWait?
    case Stop => v.pc.SWait?
    case CopyOk(_) => v.pc.SWrite?
    case CopyFailed => v.pc.SWrite? && v.pc.batch != []
    case FailWritten => v.pc.SMark?
    case FailLost => v.pc.SMark?
    case Abort => v.pc.SAbort?
    case Tallied => v.pc.STally?
    case Rested => v.pc.SRest?
    case RestCancelled => v.pc.SRest?
    case Reported => v.pc.SExit?
  }

  function Throttle(backoff: nat): nat {
    if backoff * MULTIPLIER > MAX_BACKOFF then MAX_BACKOFF else backoff * MULTIPLIER
  }

  function SaverNext(v: Saver, l: SaveLabel): Saver
    requires SaverCan(v, l)
  {
    match l
    case TakeBatch(batch) => v.(pc := SWrite(batch))
    case StreamClosed => v.(pc := SExit)
    case Stop => v.(pc := SExit)
    case CopyOk(slow) => v.(pc := STally(|v.pc.batch|, slow))
    case CopyFailed => v.(pc := SMark(v.pc.batch))
    case FailWritten => v.(pc := SAbort(v.pc.batch))
    case FailLost => v.(pc := SAbort(v.pc.batch))
    case Abort => v.(pc := SExit)
    case Tallied =>
      if v.pc.slow then Saver(SRest, v.saved + v.pc.n, Throttle(v.backoff))
      else Saver(SWait, v.saved + v.pc.n, MIN_BACKOFF)
    case Rested => v.(pc := SWait)
    case RestCancelled => v.(pc := SExit)
    case Reported => v.(pc := SDone)
  }

  predicate SaverGuard(s: State, v: Saver, l: SaveLabel)
    requires SaverCan(v, l)
  {
    match l
    case TakeBatch(batch) => s.stream.buf != [] && s.stream.buf[0] == batch
    case StreamClosed => Drained(s.stream)
    case Stop => s.cancelled
    case CopyOk(_) => !s.cancelled || v.pc.batch == []    // an empty batch makes no database call
    case FailWritten => !s.cancelled
    case RestCancelled => s.cancelled
    case Reported => |s.counts.buf| < s.counts.cap
    case _ => true
  }

  function SaverEffect(s: State, v: Saver, l: SaveLabel): State
    requires SaverCan(v, l)
  {
    match l
    case TakeBatch(_) => s.(stream := Pop(s.stream))
    case CopyOk(_) => s.(job := s.job.(table := s.job.table + v.pc.batch))
    case FailWritten => s.(job := s.job.(statuses := s.job.statuses + [FAILED]))
    case Abort => s.(cancelled := true, hist := s.hist.(unsaved := s.hist.unsaved + v.pc.batch))
    case Tallied => s.(totalSaved := s.totalSaved + v.pc.n)
    case Reported => s.(counts := Push(s.counts, v.saved))
    case _ => s
  }

  // ---- ProcessWithPool --------------------------------------------------------------------------

  predicate MainCan(c: Config, s: State, l: MainLabel) {
    match l
    case Feed => s.main.MFeed? && s.main.i < |c.paths| && |s.files.buf| < s.files.cap
    case CloseFiles => s.main.MFeed? && s.main.i >= |c.paths|
    case Launch => s.main.MLaunch?
    case Collect => s.main.MCollect? && s.main.i < c.savers && s.counts.buf != []
    case CollectDone => s.main.MCollect? && s.main.i >= c.savers
    case CompletedWritten => s.main.MReport?
    case CompletedLost => s.main.MReport?
    case Return => s.main.MReturn?
  }

  function MainApply(c: Config, s: State, l: MainLabel): State
    requires MainCan(c, s, l)
  {
    match l
    case Feed => s.(files := Push(s.files, c.paths[s.main.i]), main := MFeed(s.main.i + 1))
    case CloseFiles => s.(files := Close(s.files), main := MLaunch)
    case Launch => s.(main := MCollect(0, 0))
    case Collect => s.(counts := Pop(s.counts), main := MCollect(s.main.i + 1, s.main.total + s.counts.buf[0]))
    case CollectDone => s.(main := MReport(s.main.total))
    case CompletedWritten => s.(job := s.job.(statuses := s.job.statuses + [COMPLETED]), main := MReturn(s.main.total))
    case CompletedLost => s.(main := MReturn(s.main.total))
    case Return => s.(cancelled := true, main := MDone(s.main.total))   // the deferred cancel
  }

  // ---- The whole system -------------------------------------------------------------------------

  predicate Enabled(c: Config, s: State, a: Action) {
    match a
    case Main(l) => MainCan(c, s, l)
    case Check(w, l) => w < |s.checkers| && CheckerCan(c, s.checkers[w], l) && CheckerGuard(c, s, s.checkers[w], l)
    case Read(w, l) => Launched(s.main) && w < |s.readers| && ReaderCan(c, s.readers[w], l)
        && ReaderGuard(c, s, s.readers[w], l)
    case Save(w, l) => Launched(s.main) && w < |s.savers| && SaverCan(s.savers[w], l) && SaverGuard(s, s.savers[w], l)
    case CloseValid => Fed(s.main) && !s.validCloser && CheckersDone(s)
    case CloseStream => Launched(s.main) && !s.streamCloser && ReadersDone(s)
    case CancelJob => !s.cancelled
    case OtherInserts(_) => true
  }

  function Apply(c: Config, s: State, a: Action): State
    requires Enabled(c, s, a)
  {
    match a
    case Main(l) => MainApply(c, s, l)
    case Check(w, l) =>
        CheckerEffect(c, s, s.checkers[w], l).(checkers := s.checkers[w := CheckerNext(c, s.checkers[w], l)])
    case Read(w, l) => ReaderEffect(c, s, s.readers[w], l).(readers := s.readers[w := ReaderNext(c, s.readers[w], l)])
    case Save(w, l) => SaverEffect(s, s.savers[w], l).(savers := s.savers[w := SaverNext(s.savers[w], l)])
    case CloseValid => s.(valid := Close(s.valid), validCloser := true)
    case CloseStream => s.(stream := Close(s.stream), streamCloser := true)
    case CancelJob => s.(cancelled := true)
    case OtherInserts(sum) => s.(seen := s.seen + {sum})
  }

  /** A run: a sequence of actions, each enabled where it happens. */
  predicate Legal(c: Config, s: State, run: seq<Action>)
    decreases |run|
  {
    run == [] || (Enabled(c, s, run[0]) && Legal(c, Apply(c, s, run[0]), run[1..]))
  }

  function After(c: Config, s: State, run: seq<Action>): State
    requires Legal(c, s, run)
    decreases |run|
  {
    if run == [] then s else After(c, Apply(c, s, run[0]), run[1..])
  }

  ghost predicate Reachable(c: Config, seen: set<string>, s: State) {
    exists run :: Legal(c, Init(c, seen), run) && After(c, Init(c, seen), run) == s
  }

  /** A send on, or a close of, a channel that is already closed. */
  predicate Panics(c: Config, s: State, a: Action)
    requires Enabled(c, s, a)
  {
    match a
    case Main(Feed) => s.files.closed
    case Main(CloseFiles) => s.files.closed
    case Check(_, Handed) => s.valid.closed
    case Read(_, Sent) => s.stream.closed
    case Save(_, Reported) => s.counts.closed
    case CloseValid => s.valid.closed
    case CloseStream => s.stream.closed
    case _ => false
  }

  /** Every goroutine has ended. */
  predicate Final(s: State) {
    s.main.MDone? && s.validCloser && s.streamCloser && CheckersDone(s) && ReadersDone(s) && SaversDone(s)
  }
}
