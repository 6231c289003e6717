/**
 The worker goroutines as the loops the program runs. The environment answers nondeterministically within
 what `Env` allows; each loop is shown to follow its automaton in `Pipeline`, guards on the context included,
 and what it sends, copies or accepts is stated outright.
*/
module Workers {
  import opened Wrappers
  import opened Capture
  import opened Aggregates
  import opened Pipeline
  import opened PipelineRows
  import opened PipelineSequential

  // ---- The environment of a worker --------------------------------------------------------------

  /** The context is cancelled once the worker has made `at` steps, or never while it runs; database calls may fail
      besides, and other workers may insert checksums. */
  datatype Env = Env(at: Option<nat>, faults: bool, others: bool)

  /** The context is done after n steps of the worker. */
  predicate Done(env: Env, n: nat) { env.at.Some? && env.at.value <= n }

  predicate Quiet(env: Env) { env.at.None? && !env.faults && !env.others }

  /** Whether a database call fails although the context is live. */
  method Fails(env: Env) returns (fault: bool)
    ensures fault ==> env.faults
  {
    fault := false;
    if env.faults { fault := *; }
  }

  // What a live or a cancelled context rules out.
  predicate ReadAllowed(done: bool, l: ReadLabel) {
    match l
    case Live => !done
    case Cancelled => done
    case SendCancelled => done
    case ProgressOk => !done
    case _ => true
  }

  predicate SaveAllowed(done: bool, v: Saver, l: SaveLabel) {
    match l
    case Stop => done
    case CopyOk(_) => v.pc.SWrite? ==> !done || v.pc.batch == []
    case FailWritten => !done
    case RestCancelled => done
    case _ => true
  }

  predicate CheckAllowed(done: bool, l: CheckLabel) {
    match l
    case Inserted => !done
    case Duplicate => !done
    case HandCancelled => done
    case _ => true
  }

  // What the channels and the checksum table must offer.
  predicate ReadOffered(s: State, l: ReadLabel) {
    match l
    case TakeValid(path) => s.valid.buf != [] && s.valid.buf[0] == path
    case ValidClosed => Drained(s.valid)
    case Sent => |s.stream.buf| < s.stream.cap
    case _ => true
  }

  predicate SaveOffered(s: State, l: SaveLabel) {
    match l
    case TakeBatch(batch) => s.stream.buf != [] && s.stream.buf[0] == batch
    case StreamClosed => Drained(s.stream)
    case Reported => |s.counts.buf| < s.counts.cap
    case _ => true
  }

  predicate CheckOffered(c: Config, s: State, k: Checker, l: CheckLabel) {
    match l
    case TakeFile(path) => s.files.buf != [] && s.files.buf[0] == path
    case FilesClosed => Drained(s.files)
    case Inserted => k.CCheck? && c.disk(k.path).checksum !in s.seen
    case Duplicate => k.CCheck? && c.disk(k.path).checksum in s.seen
    case Handed => |s.valid.buf| < s.valid.cap
    case _ => true
  }

  /** The guards of the pipeline are what the context allows and what the channels and the table offer. */
  lemma GuardsSplit(c: Config, s: State)
    ensures forall r, l :: ReaderCan(c, r, l) ==>
        (ReaderGuard(c, s, r, l) <==> ReadAllowed(s.cancelled, l) && ReadOffered(s, l))
    ensures forall v, l :: SaverCan(v, l) ==>
        (SaverGuard(s, v, l) <==> SaveAllowed(s.cancelled, v, l) && SaveOffered(s, l))
    ensures forall k, l :: CheckerCan(c, k, l) ==>
      (CheckerGuard(c, s, k, l) <==> CheckAllowed(s.cancelled, l) && CheckOffered(c, s, k, l))
  {
  }

  // ---- Following an automaton -------------------------------------------------------------------

  // Where a run of steps leads, if each is in program order and allowed by the context at its time.
  function FollowReader(env: Env, c: Config, ls: seq<ReadLabel>): Option<Reader> {
    if ls == [] then Some(RRecv)
    else
      var n := |ls| - 1;
      var m := FollowReader(env, c, ls[..n]);
      if m.Some? && ReaderCan(c, m.value, ls[n]) && ReadAllowed(Done(env, n), ls[n])
          then Some(ReaderNext(c, m.value, ls[n])) else None
  }

  function FollowSaver(env: Env, ls: seq<SaveLabel>): Option<Saver> {
    if ls == [] then Some(Idle())
    else
      var n := |ls| - 1;
      var m := FollowSaver(env, ls[..n]);
      if m.Some? && SaverCan(m.value, ls[n]) && SaveAllowed(Done(env, n), m.value, ls[n])
          then Some(SaverNext(m.value, ls[n])) else None
  }

  function FollowChecker(env: Env, c: Config, ls: seq<CheckLabel>): Option<Checker> {
    if ls == [] then Some(CRecv)
    else
      var n := |ls| - 1;
      var m := FollowChecker(env, c, ls[..n]);
      if m.Some? && CheckerCan(c, m.value, ls[n]) && CheckAllowed(Done(env, n), ls[n])
          then Some(CheckerNext(c, m.value, ls[n])) else None
  }

  lemma ReaderThen(env: Env, c: Config, ls: seq<ReadLabel>, l: ReadLabel)
    requires FollowReader(env, c, ls).Some? && ReaderCan(c, FollowReader(env, c, ls).value, l)
        && ReadAllowed(Done(env, |ls|), l)
    ensures FollowReader(env, c, ls + [l]) == Some(ReaderNext(c, FollowReader(env, c, ls).value, l))
  {
    assert (ls + [l])[..|ls|] == ls;
  }

  lemma SaverThen(env: Env, ls: seq<SaveLabel>, l: SaveLabel)
    requires FollowSaver(env, ls).Some? && SaverCan(FollowSaver(env, ls).value, l)
    requires SaveAllowed(Done(env, |ls|), FollowSaver(env, ls).value, l)
    ensures FollowSaver(env, ls + [l]) == Some(SaverNext(FollowSaver(env, ls).value, l))
  {
    assert (ls + [l])[..|ls|] == ls;
  }

  lemma CheckerThen(env: Env, c: Config, ls: seq<CheckLabel>, l: CheckLabel)
    requires FollowChecker(env, c, ls).Some? && CheckerCan(c, FollowChecker(env, c, ls).value, l)
        && CheckAllowed(Done(env, |ls|), l)
    ensures FollowChecker(env, c, ls + [l]) == Some(CheckerNext(c, FollowChecker(env, c, ls).value, l))
  {
    assert (ls + [l])[..|ls|] == ls;
  }

  /** A reader that follows its automaton has a moment of cancellation: before it no step shows a cancelled context, and
      from it on the context is never found live and no progress is written. */
  lemma {:induction false} ReaderHeeds(env: Env, c: Config, ls: seq<ReadLabel>, i: nat)
    requires FollowReader(env, c, ls).Some? && i < |ls|
    ensures ls[i].Cancelled? || ls[i].SendCancelled? ==> Done(env, i)
    ensures ls[i].Live? || ls[i].ProgressOk? ==> !Done(env, i)
  {
    if i == |ls| - 1 {
    } else {
      ReaderHeeds(env, c, ls[..|ls| - 1], i);
    }
  }

  /** So has a saver: from the moment of cancellation no batch with rows is copied and FAILED is not written. */
  lemma {:induction false} SaverHeeds(env: Env, ls: seq<SaveLabel>, i: nat)
    requires FollowSaver(env, ls).Some? && i < |ls|
    ensures ls[i].Stop? || ls[i].RestCancelled? ==> Done(env, i)
    ensures ls[i].FailWritten? ==> !Done(env, i)
    ensures ls[i].CopyOk? ==> !Done(env, i) || (i > 0 && ls[i - 1] == TakeBatch([]))
  {
    var before := ls[..|ls| - 1];
    if i < |ls| - 1 {
      SaverHeeds(env, before, i);
    } else if ls[i].CopyOk? {
      TakenBefore(env, before);
    }
  }

  /** The batch being copied is the one just taken. */
  lemma TakenBefore(env: Env, ls: seq<SaveLabel>)
    requires FollowSaver(env, ls).Some? && FollowSaver(env, ls).value.pc.SWrite?
    ensures ls != [] && ls[|ls| - 1] == TakeBatch(FollowSaver(env, ls).value.pc.batch)
  {
  }

  /** And a checksum worker: from then on no insert is accepted or found to be a duplicate. */
  lemma {:induction false} CheckerHeeds(env: Env, c: Config, ls: seq<CheckLabel>, i: nat)
    requires FollowChecker(env, c, ls).Some? && i < |ls|
    ensures ls[i].HandCancelled? ==> Done(env, i)
    ensures ls[i].Inserted? || ls[i].Duplicate? ==> !Done(env, i)
  {
    if i == |ls| - 1 {
    } else {
      CheckerHeeds(env, c, ls[..|ls| - 1], i);
    }
  }

  // ---- Batches ----------------------------------------------------------------------------------

  predicate FullBatches(sent: seq<seq<PacketRow>>) {
    forall i :: 0 <= i < |sent| ==> |sent[i]| == BATCH_LIMIT
  }

  /** Non-empty batches, all but the last of exactly 500 rows. */
  predicate Batches(sent: seq<seq<PacketRow>>) {
    && (forall i :: 0 <= i < |sent| ==> 0 < |sent[i]| <= 500)
    && (forall i :: 0 <= i < |sent| - 1 ==> |sent[i]| == 500)
  }

  lemma {:induction false} FullLength(sent: seq<seq<PacketRow>>)
    requires FullBatches(sent)
    ensures |Flatten(sent)| == BATCH_LIMIT * |sent|
  {
    if sent == [] {
    } else {
      assert FullBatches(sent[1..]);
      FullLength(sent[1..]);
    }
  }

  lemma {:induction false} FlattenConcat(xss: seq<seq<PacketRow>>, yss: seq<seq<PacketRow>>)
    ensures Flatten(xss + yss) == Flatten(xss) + Flatten(yss)
  {
    if xss == [] {
      assert xss + yss == yss;
    } else {
      assert (xss + yss)[1..] == xss[1..] + yss;
      FlattenConcat(xss[1..], yss);
    }
  }

  /** The select that offers a batch to the stream: if it is sent, it is counted. */
  method Offer(env: Env, c: Config, path: Path, pos: nat, batch: seq<PacketRow>, last: bool, steps: seq<ReadLabel>)
    returns (ok: bool, trace: seq<ReadLabel>)
    requires FollowReader(env, c, steps) == Some(RSend(path, pos, batch, last))
    ensures !ok ==> Done(env, |steps|)
    ensures |steps| < |trace| && FollowReader(env, c, trace)
        == Some(if !ok then RRecv else if last then RProgress(path) else RPoll(path, pos))
  {
    var stop: bool := *;
    ok := !(Done(env, |steps|) && stop);
    if ok {
      ReaderThen(env, c, steps, Sent);
      ReaderThen(env, c, steps + [Sent], Counted);
      trace := steps + [Sent] + [Counted];
    } else {
      ReaderThen(env, c, steps, SendCancelled);
      trace := steps + [SendCancelled];
    }
  }

  /** The look at the context before an empty batch. */
  method PollEmpty(env: Env, c: Config, path: Path, pos: nat, steps: seq<ReadLabel>)
      returns (done: bool, trace: seq<ReadLabel>)
    requires FollowReader(env, c, steps) == Some(RPoll(path, pos))
    ensures done == Done(env, |steps|)
    ensures |steps| < |trace| && FollowReader(env, c, trace) == Some(if done then RRecv else RRead(path, pos, []))
  {
    done := Done(env, |steps|);
    ReaderThen(env, c, steps, if done then Cancelled else Live);
    trace := steps + [if done then Cancelled else Live];
  }

  /** Where the rows of the file are while it is streamed: sent in full batches, in the batch, or to come. */
  predicate Streaming(f: FileData, sent: seq<seq<PacketRow>>, batch: seq<PacketRow>, pos: nat) {
    FullBatches(sent) && Flatten(sent) + batch + RowsFrom(f, pos) == FileRows(f)
  }

  lemma StreamRow(f: FileData, sent: seq<seq<PacketRow>>, batch: seq<PacketRow>, pos: nat)
    requires Streaming(f, sent, batch, pos) && pos < |f.events|
    ensures f.events[pos].Packet? ==> Streaming(f, sent, batch + [f.events[pos].row], pos + 1)
    ensures f.events[pos].Corrupt? ==> Streaming(f, sent, batch, pos + 1)
    ensures f.events[pos].Truncated? ==> Flatten(sent) + batch == FileRows(f)
  {
    RowsFromStep(f, pos);
    if f.events[pos].Packet? {
      assert Flatten(sent) + batch + RowsFrom(f, pos) == Flatten(sent) + (batch + [f.events[pos].row])
          + RowsFrom(f, pos + 1);
    }
  }

  lemma StreamSend(f: FileData, sent: seq<seq<PacketRow>>, batch: seq<PacketRow>, pos: nat)
    requires Streaming(f, sent, batch, pos) && |batch| == BATCH_LIMIT
    ensures Streaming(f, sent + [batch], [], pos) && |Flatten(sent + [batch])| == |Flatten(sent)| + |batch|
  {
    FlattenAppend(sent, batch);
  }

  /** Whole batches were sent, and they are a prefix of the rows. */
  predicate Interrupted(f: FileData, sent: seq<seq<PacketRow>>) {
    FullBatches(sent) && |Flatten(sent)| == 500 * |sent| && Flatten(sent) <= FileRows(f)
  }

  lemma StreamPrefix(f: FileData, sent: seq<seq<PacketRow>>, batch: seq<PacketRow>, pos: nat)
    requires Streaming(f, sent, batch, pos)
    ensures Interrupted(f, sent)
  {
    FullLength(sent);
  }

  /** os.Open and the reading of the pcap header. */
  method Open(env: Env, c: Config, path: Path, steps: seq<ReadLabel>) returns (ok: bool, trace: seq<ReadLabel>)
    requires FollowReader(env, c, steps) == Some(ROpen(path))
    ensures ok == Readable(c.disk(path))
    ensures |trace| == |steps| + 1 && FollowReader(env, c, trace) == Some(if ok then RPoll(path, 0) else RRecv)
    ensures ok ==> Streaming(c.disk(path), [], [], 0)
  {
    ok := Readable(c.disk(path));
    ReaderThen(env, c, steps, if ok then Opened else OpenFailed);
    trace := steps + [if ok then Opened else OpenFailed];
    RowsFromStart(c.disk(path));
  }

  /** One call of the packet reader: a packet joins the batch, a corrupt record is skipped, and the end of the file
      or a truncated record ends the loop. */
  method ReadRecord(env: Env, c: Config, path: Path, pos: nat, batch: seq<PacketRow>, steps: seq<ReadLabel>,
                    ghost sent: seq<seq<PacketRow>>)
    returns (done: bool, next: nat, grown: seq<PacketRow>, trace: seq<ReadLabel>)
    requires pos <= |c.disk(path).events| && |batch| < BATCH_LIMIT && Streaming(c.disk(path), sent, batch, pos)
    requires FollowReader(env, c, steps) == Some(RRead(path, pos, batch))
    ensures done ==> next == pos && grown == batch && Flatten(sent) + grown == FileRows(c.disk(path))
    ensures !done ==>
        next == pos + 1 <= |c.disk(path).events| && |grown| <= BATCH_LIMIT && Streaming(c.disk(path), sent, grown, next)
    ensures |steps| < |trace|
    ensures FollowReader(env, c, trace)
         == Some(if done then (if |grown| > 0 then RSend(path, next, grown, true) else RProgress(path))
                 else if |grown| == BATCH_LIMIT then RSend(path, next, grown, false)
                 else if grown == [] then RPoll(path, next) else RRead(path, next, grown))
  {
    var f := c.disk(path);
    ReaderThen(env, c, steps, Record);
    done, next, grown, trace := false, pos + 1, batch, steps + [Record];
    if pos == |f.events| {
      RowsFromStart(f);
      return true, pos, batch, trace;
    }
    StreamRow(f, sent, batch, pos);
    match f.events[pos]
    case Truncated => done, next := true, pos;
    case Corrupt =>
    case Packet(row) => grown := batch + [row];
  }

  /** A batch that has reached the limit is offered. */
  method SendFull(env: Env, c: Config, path: Path, pos: nat, batch: seq<PacketRow>, steps: seq<ReadLabel>,
                  sent: seq<seq<PacketRow>>, before: nat)
    returns (ok: bool, all: seq<seq<PacketRow>>, read: nat, trace: seq<ReadLabel>)
    requires Streaming(c.disk(path), sent, batch, pos) && |batch| == BATCH_LIMIT && before == |Flatten(sent)|
    requires FollowReader(env, c, steps) == Some(RSend(path, pos, batch, false))
    ensures |steps| < |trace| && FollowReader(env, c, trace) == Some(if ok then RPoll(path, pos) else RRecv)
    ensures ok ==> Streaming(c.disk(path), all, [], pos)
    ensures !ok ==> Done(env, |steps|) && all == sent && Interrupted(c.disk(path), sent)
    ensures read == |Flatten(all)|
  {
    ok, trace := Offer(env, c, path, pos, batch, false, steps);
    if ok {
      StreamSend(c.disk(path), sent, batch, pos);
      all, read := sent + [batch], before + |batch|;
    } else {
      StreamPrefix(c.disk(path), sent, batch, pos);
      all, read := sent, before;
    }
  }

  /** The batch that completes a file is offered, if it has any rows. */
  method Flush(env: Env, c: Config, path: Path, pos: nat, batch: seq<PacketRow>, steps: seq<ReadLabel>,
               sent: seq<seq<PacketRow>>, before: nat)
    returns (ok: bool, all: seq<seq<PacketRow>>, read: nat, trace: seq<ReadLabel>)
    requires FullBatches(sent) && before == |Flatten(sent)|
    requires |batch| < BATCH_LIMIT && Flatten(sent) + batch == FileRows(c.disk(path))
    requires FollowReader(env, c, steps) == Some(if |batch| > 0 then RSend(path, pos, batch, true) else RProgress(path))
    ensures |steps| <= |trace| && FollowReader(env, c, trace) == Some(if ok then RProgress(path) else RRecv)
    ensures ok ==> Batches(all) && Flatten(all) == FileRows(c.disk(path))
    ensures !ok ==> Done(env, |steps|) && all == sent && Interrupted(c.disk(path), sent)
    ensures read == |Flatten(all)|
  {
    ok, all, read, trace := true, sent, before, steps;
    if |batch| > 0 {
      ok, trace := Offer(env, c, path, pos, batch, true, steps);
      if ok {
        FlattenAppend(sent, batch);
        all, read := sent + [batch], before + |batch|;
      } else {
        FullLength(sent);
      }
    }
  }

  /** The function literal inside PcapWorker: opens one file and streams it in batches. Without an error the
      batches are the file's rows; with one the file is unreadable and nothing was sent, or the context was
      cancelled and the batches are a prefix of the rows, each of them full; none if it was cancelled by the time the
      file was open. */
  method ExtractFile(env: Env, c: Config, path: Path, steps: seq<ReadLabel>)
    returns (failed: bool, sent: seq<seq<PacketRow>>, read: nat, trace: seq<ReadLabel>)
    requires FollowReader(env, c, steps) == Some(ROpen(path))
    ensures |steps| <= |trace| && FollowReader(env, c, trace) == Some(if failed then RRecv else RProgress(path))
    ensures Batches(sent) && read == |Flatten(sent)|
    ensures !failed ==> Flatten(sent) == FileRows(c.disk(path))
    ensures failed ==> Interrupted(c.disk(path), sent)
    ensures failed ==> Done(env, |trace|) || !c.disk(path).openable || !c.disk(path).header
    ensures !c.disk(path).openable || !c.disk(path).header || Done(env, |steps| + 1) ==> failed && sent == []
  {
    var f := c.disk(path);
    sent, read := [], 0;
    var readable;
    readable, trace := Open(env, c, path, steps);
    if !readable {
      return true, sent, read, trace;
    }
    var pos: nat, batch: seq<PacketRow> := 0, [];
    while true
      invariant |steps| < |trace|
      invariant Done(env, |steps| + 1) ==> |sent| == |batch| == 0 && Done(env, |trace|)
      invariant pos <= |f.events| && |batch| < BATCH_LIMIT
      invariant read == |Flatten(sent)| && Streaming(f, sent, batch, pos)
      invariant FollowReader(env, c, trace) == Some(if batch == [] then RPoll(path, pos) else RRead(path, pos, batch))
      decreases |f.events| - pos
    {
      if |batch| == 0 {
        var done;
        done, trace := PollEmpty(env, c, path, pos, trace);
        if done {
          StreamPrefix(f, sent, batch, pos);
          return true, sent, read, trace;
        }
      }
      var end;
      end, pos, batch, trace := ReadRecord(env, c, path, pos, batch, trace, sent);
      if end {
        break;
      }
      if |batch| >= BATCH_LIMIT {
        var ok;
        ok, sent, read, trace := SendFull(env, c, path, pos, batch, trace, sent, read);
        if !ok {
          return true, sent, read, trace;
        }
        batch := [];
      }
    }
    var ok;
    ok, sent, read, trace := Flush(env, c, path, pos, batch, trace, sent, read);
    return !ok, sent, read, trace;
  }

  /** The paths that count as progress when no update is lost. */
  function ReadableOf(c: Config, paths: seq<Path>): seq<Path> {
    if paths == [] then []
    else
      var rest, last := paths[..|paths| - 1], paths[|paths| - 1];
      ReadableOf(c, rest) + (if Readable(c.disk(last)) then [last] else [])
  }

  lemma AllRowsGrow(c: Config, jobs: seq<Path>, i: nat)
    requires i < |jobs|
    ensures AllRows(c, jobs[..i + 1]) == AllRows(c, jobs[..i]) + FileRows(c.disk(jobs[i]))
    ensures ReadableOf(c, jobs[..i + 1]) == ReadableOf(c, jobs[..i]) + if Readable(c.disk(jobs[i])) then [jobs[i]]
        else []
  {
    assert jobs[..i + 1] == jobs[..i] + [jobs[i]];
    AllRowsAppend(c, jobs[..i], jobs[i]);
  }

  /** PcapWorker over the paths it receives before `validFiles` is closed and empty. Unless the context is
      cancelled it sends the rows of all of them, in order, and if no call fails reports progress for exactly the
      readable ones. */
  method PcapWorker(env: Env, c: Config, jobs: seq<Path>)
    returns (sent: seq<seq<PacketRow>>, read: nat, counted: seq<Path>, trace: seq<ReadLabel>)
    ensures FollowReader(env, c, trace) == Some(RDone)
    ensures forall i :: 0 <= i < |sent| ==> 0 < |sent[i]| <= 500
    ensures read == |Flatten(sent)|
    ensures forall p :: p in counted ==> p in jobs && c.disk(p).openable && c.disk(p).header
    ensures !Done(env, |trace|) ==> Flatten(sent) == AllRows(c, jobs)
    ensures !Done(env, |trace|) && !env.faults ==> counted == ReadableOf(c, jobs)
  {
    sent, read, counted, trace := [], 0, [], [];
    for i := 0 to |jobs|
      invariant FollowReader(env, c, trace) == Some(RRecv)
      invariant forall i :: 0 <= i < |sent| ==> 0 < |sent[i]| <= 500
      invariant read == |Flatten(sent)|
      invariant !Done(env, |trace|) ==> Flatten(sent) == AllRows(c, jobs[..i])
      invariant !Done(env, |trace|) && !env.faults ==> counted == ReadableOf(c, jobs[..i])
      invariant forall p :: p in counted ==> p in jobs && c.disk(p).openable && c.disk(p).header
    {
      var path := jobs[i];
      ReaderThen(env, c, trace, TakeValid(path));
      trace := trace + [TakeValid(path)];
      if Done(env, |trace|) {
        ReaderThen(env, c, trace, Cancelled);
        trace := trace + [Cancelled];
        return;
      }
      ReaderThen(env, c, trace, Live);
      trace := trace + [Live];
      var failed, batches, n;
      failed, batches, n, trace := ExtractFile(env, c, path, trace);
      FlattenConcat(sent, batches);
      sent, read := sent + batches, read + n;
      AllRowsGrow(c, jobs, i);
      if !failed {
        var lost := Fails(env);
        if !Done(env, |trace|) && !lost {
          ReaderThen(env, c, trace, ProgressOk);
          trace, counted := trace + [ProgressOk], counted + [path];
        } else {
          ReaderThen(env, c, trace, ProgressFailed);
          trace := trace + [ProgressFailed];
        }
      }
    }
    assert jobs[..|jobs|] == jobs;
    ReaderThen(env, c, trace, ValidClosed);
    trace := trace + [ValidClosed];
  }

  // ---- Backoff ----------------------------------------------------------------------------------

  /** The throttle after a history of writes, true for a slow one, as the saver updates it. */
  function BackoffAfter(writes: seq<bool>): nat {
    if writes == [] then MIN_BACKOFF
    else if writes[|writes| - 1] then Throttle(BackoffAfter(writes[..|writes| - 1]))
    else MIN_BACKOFF
  }

  /** The length of the trailing run of slow writes. */
  function SlowTail(writes: seq<bool>): nat {
    if writes == [] || !writes[|writes| - 1] then 0 else 1 + SlowTail(writes[..|writes| - 1])
  }

  function Pow(base: nat, k: nat): nat {
    if k == 0 then 1 else base * Pow(base, k - 1)
  }

  /** After any history the throttle is min(3000, 25 * 3^k) ms for k trailing slow writes. */
  lemma {:induction false} BackoffClosedForm(writes: seq<bool>)
    ensures var uncapped := 25 * Pow(3, SlowTail(writes));
      BackoffAfter(writes) == if uncapped > 3000 then 3000 else uncapped
    ensures 25 <= BackoffAfter(writes) <= 3000
  {
    if writes != [] && writes[|writes| - 1] {
      BackoffClosedForm(writes[..|writes| - 1]);
    }
  }

  /** The slow flags of the successful copies of a saver. */
  function SlowFlags(ls: seq<SaveLabel>): seq<bool> {
    if ls == [] then []
    else SlowFlags(ls[..|ls| - 1]) + (if ls[|ls| - 1].CopyOk? then [ls[|ls| - 1].slow] else [])
  }

  /** Whatever a saver of the pipeline has been through, its throttle is the one its writes call for. */
  lemma {:induction false} BackoffTracksWrites(env: Env, ls: seq<SaveLabel>)
    requires FollowSaver(env, ls).Some?
    ensures var v := FollowSaver(env, ls).value;
      if v.pc.STally? then
        && SlowFlags(ls) != [] && SlowFlags(ls)[|SlowFlags(ls)| - 1] == v.pc.slow
        && v.backoff == BackoffAfter(SlowFlags(ls)[..|SlowFlags(ls)| - 1])
      else v.backoff == BackoffAfter(SlowFlags(ls))
  {
    if ls == [] {
    } else {
      var before := ls[..|ls| - 1];
      BackoffTracksWrites(env, before);
      if ls[|ls| - 1].CopyOk? {
        assert SlowFlags(ls)[..|SlowFlags(ls)| - 1] == SlowFlags(before);
      } else {
        assert SlowFlags(ls) == SlowFlags(before);
      }
    }
  }

  // ---- Savers -----------------------------------------------------------------------------------

  /** One BulkDatabaseCopy and what follows it: counting and throttling, or marking the job and cancelling. On a context
      that is done only an empty batch gets through. */
  method CopyBatch(env: Env, batch: seq<PacketRow>, saved: nat, backoff: nat, steps: seq<SaveLabel>)
    returns (ok: bool, slow: bool, trace: seq<SaveLabel>)
    requires FollowSaver(env, steps) == Some(Saver(SWrite(batch), saved, backoff))
    ensures |steps| <= |trace|
    ensures Done(env, |steps|) && batch != [] ==> !ok
    ensures !ok ==> batch != [] && (Done(env, |steps|) || env.faults)
    ensures FollowSaver(env, trace) == Some(if !ok then Saver(SExit, saved, backoff)
                                            else if slow then Saver(SRest, saved + |batch|, Throttle(backoff))
                                            else Saver(SWait, saved + |batch|, MIN_BACKOFF))
  {
    var fault := Fails(env);
    slow := *;
    ok := batch == [] || !(Done(env, |steps|) || fault);
    if ok {
      SaverThen(env, steps, CopyOk(slow));
      trace := steps + [CopyOk(slow)];
      SaverThen(env, trace, Tallied);
      trace := trace + [Tallied];
    } else {
      SaverThen(env, steps, CopyFailed);
      trace := steps + [CopyFailed];
      var lost := Fails(env);
      var mark := if !Done(env, |trace|) && !lost then FailWritten else FailLost;
      SaverThen(env, trace, mark);
      trace := trace + [mark];
      SaverThen(env, trace, Abort);
      trace := trace + [Abort];
    }
  }

  /** The select that waits out the throttle, unless the context is cancelled first. */
  method Rest(env: Env, saved: nat, backoff: nat, steps: seq<SaveLabel>) returns (woken: bool, trace: seq<SaveLabel>)
    requires FollowSaver(env, steps) == Some(Saver(SRest, saved, backoff))
    ensures |steps| <= |trace|
    ensures woken ==> Done(env, |steps|)
    ensures FollowSaver(env, trace) == Some(Saver(if woken then SExit else SWait, saved, backoff))
  {
    var wake: bool := *;
    woken := Done(env, |steps|) && wake;
    SaverThen(env, steps, if woken then RestCancelled else Rested);
    trace := steps + [if woken then RestCancelled else Rested];
  }

  lemma PrefixGrows(batches: seq<seq<PacketRow>>, k: nat)
    requires k < |batches|
    ensures Flatten(batches[..k + 1]) == Flatten(batches[..k]) + batches[k]
  {
    assert batches[..k + 1] == batches[..k] + [batches[k]];
    FlattenAppend(batches[..k], batches[k]);
  }

  /** PacketSaverWorker over the batches it receives before the stream is closed and empty. The rows copied are
      those of its first `written` batches; only cancellation or a failed copy keeps it from writing all, and
      the throttle is always the one its writes call for. */
  method PacketSaverWorker(env: Env, batches: seq<seq<PacketRow>>)
    returns (table: seq<PacketRow>, written: nat, saved: nat, backoff: nat, trace: seq<SaveLabel>)
    ensures FollowSaver(env, trace) == Some(Saver(SDone, saved, backoff))
    ensures written <= |batches| && table == Flatten(batches[..written]) && saved == |table|
    ensures !Done(env, |trace|) && !env.faults ==> written == |batches|
    ensures backoff == BackoffAfter(SlowFlags(trace))
  {
    table, written, saved, backoff, trace := [], 0, 0, MIN_BACKOFF, [];
    while true
      invariant written <= |batches| && table == Flatten(batches[..written]) && saved == |table|
      invariant FollowSaver(env, trace) == Some(Saver(SWait, saved, backoff))
      decreases |batches| - written
    {
      var stop: bool := *;
      stop := stop && Done(env, |trace|);
      if stop || written == |batches| {
        SaverThen(env, trace, if stop then Stop else StreamClosed);
        trace := trace + [if stop then Stop else StreamClosed];
        break;
      }
      var batch := batches[written];
      SaverThen(env, trace, TakeBatch(batch));
      var ok, slow;
      ok, slow, trace := CopyBatch(env, batch, saved, backoff, trace + [TakeBatch(batch)]);
      if !ok {
        break;
      }
      PrefixGrows(batches, written);
      table, written, saved := table + batch, written + 1, saved + |batch|;
      if slow {
        backoff := backoff * MULTIPLIER;
        if backoff > MAX_BACKOFF {
          backoff := MAX_BACKOFF;
        }
        var woken;
        woken, trace := Rest(env, saved, backoff, trace);
        if woken {
          break;
        }
      } else {
        backoff := MIN_BACKOFF;
      }
    }
    SaverThen(env, trace, Reported);
    trace := trace + [Reported];
    BackoffTracksWrites(env, trace);
  }

  // ---- Checksum workers -------------------------------------------------------------------------

  /** The accepted paths are listed and hashable, their checksums were new and are known now, and no two are equal. */
  predicate AcceptedOnce(c: Config, files: seq<Path>, seen: set<string>, known: set<string>, accepted: seq<Path>) {
    && (forall p :: p in accepted ==> p in files && c.disk(p).openable && c.disk(p).hashable
                                      && c.disk(p).checksum in known && c.disk(p).checksum !in seen)
    && (forall i, j :: 0 <= i < j < |accepted| ==> c.disk(accepted[i]).checksum != c.disk(accepted[j]).checksum)
  }

  lemma AcceptOne(c: Config, files: seq<Path>, seen: set<string>, before: set<string>, known: set<string>,
      accepted: seq<Path>, path: Path)
    requires AcceptedOnce(c, files, seen, before, accepted) && seen <= before <= known && path in files
    requires Hashable(c.disk(path)) && c.disk(path).checksum !in before && c.disk(path).checksum in known
    ensures AcceptedOnce(c, files, seen, known, accepted + [path])
  {
  }

  /** Hashes one file and inserts its checksum; the file is taken only if the insert adds a row, which it cannot on a
      context that is done. */
  method CheckOne(env: Env, c: Config, path: Path, known: set<string>, steps: seq<CheckLabel>)
    returns (took: bool, now: set<string>, trace: seq<CheckLabel>)
    requires FollowChecker(env, c, steps) == Some(CCheck(path))
    ensures |steps| <= |trace| && FollowChecker(env, c, trace) == Some(if took then CSend(path) else CRecv)
    ensures known <= now
    ensures Done(env, |steps|) ==> !took
    ensures took ==> Hashable(c.disk(path)) && c.disk(path).checksum !in known && c.disk(path).checksum in now
    ensures Quiet(env) ==> took == (Hashable(c.disk(path)) && c.disk(path).checksum !in known)
                           && now == known + if Hashable(c.disk(path)) then {c.disk(path).checksum} else {}
  {
    var f := c.disk(path);
    took, now := false, known;
    if !(f.openable && f.hashable) {
      CheckerThen(env, c, steps, Unhashed);
      return took, now, steps + [Unhashed];
    }
    if env.others {
      var others: set<string> := *;
      now := now + others;
    }
    var fault := Fails(env);
    var outcome := if Done(env, |steps|) || fault then InsertError else if f.checksum in now then Duplicate
        else Inserted;
    CheckerThen(env, c, steps, outcome);
    trace := steps + [outcome];
    if outcome.Inserted? {
      took, now := true, now + {f.checksum};
    }
  }

  /** CheckAndInsertSourceFile over the paths it receives. `seen` is the source_files table, which other workers
      may extend at any time. Only hashable files whose checksum was new are accepted, once per checksum;
      unless the context is cancelled every accepted path is handed on; and in a quiet environment exactly the files
      of the sequential check are accepted. */
  method CheckAndInsertSourceFile(env: Env, c: Config, files: seq<Path>, seen: set<string>)
    returns (accepted: seq<Path>, handed: seq<Path>, known: set<string>, trace: seq<CheckLabel>)
    ensures FollowChecker(env, c, trace) == Some(CDone)
    ensures seen <= known && AcceptedOnce(c, files, seen, known, accepted)
    ensures handed <= accepted && |accepted| <= |handed| + 1
    ensures !Done(env, |trace|) ==> handed == accepted
    ensures Quiet(env) ==> accepted == Fresh(c, files, seen) && known == SeenAfter(c, files, seen)
  {
    accepted, handed, known, trace := [], [], seen, [];
    for i := 0 to |files|
      invariant FollowChecker(env, c, trace) == Some(CRecv)
      invariant seen <= known && handed == accepted
      invariant Quiet(env) ==> accepted == Fresh(c, files[..i], seen) && known == SeenAfter(c, files[..i], seen)
      invariant AcceptedOnce(c, files, seen, known, accepted)
    {
      var path := files[i];
      assert files[..i + 1][..i] == files[..i];
      CheckerThen(env, c, trace, TakeFile(path));
      var took, now;
      took, now, trace := CheckOne(env, c, path, known, trace + [TakeFile(path)]);
      if took {
        AcceptOne(c, files, seen, known, now, accepted, path);
        accepted := accepted + [path];
      }
      known := now;
      if !took {
        continue;
      }
      var stop: bool := *;
      if Done(env, |trace|) && stop {
        CheckerThen(env, c, trace, HandCancelled);
        trace := trace + [HandCancelled];
        return;
      }
      CheckerThen(env, c, trace, Handed);
      trace, handed := trace + [Handed], handed + [path];
    }
    assert files[..|files|] == files;
    CheckerThen(env, c, trace, FilesClosed);
    trace := trace + [FilesClosed];
  }

  // ---- ProcessWithPool --------------------------------------------------------------------------

  /** The loop that adds up the savers' counts. */
  method CollectCounts(finalCounts: seq<nat>) returns (totalPackets: nat)
    ensures totalPackets == Total(finalCounts)
  {
    totalPackets := 0;
    for i := 0 to |finalCounts|
      invariant totalPackets == Total(finalCounts[..i])
    {
      TotalAppend(finalCounts[..i], finalCounts[i]);
      assert finalCounts[..i + 1] == finalCounts[..i] + [finalCounts[i]];
      totalPackets := totalPackets + finalCounts[i];
    }
    assert finalCounts[..|finalCounts|] == finalCounts;
  }

  /** The pool run on the schedule that lets each stage finish before the next: feed, check, read, save, collect; each
      stage has its own environment. If no stage is cancelled and no copy fails the table gets exactly the rows of the
      accepted files, in list order; if the check is quiet too, that is the sequential program that the concurrent
      pipeline refines. */
  method ProcessInStages(checking: Env, reading: Env, saving: Env, c: Config, seen: set<string>)
    returns (table: seq<PacketRow>, accepted: seq<Path>, totalPackets: nat, totalRead: nat)
    ensures totalPackets == |table|
    ensures checking.at.None? && reading.at.None? && saving.at.None? && !saving.faults ==>
      table == AllRows(c, accepted) && totalRead == totalPackets
    ensures forall p :: p in accepted ==> p in c.paths && c.disk(p).checksum !in seen
    ensures Quiet(checking) ==> accepted == Fresh(c, c.paths, seen)
  {
    var files: seq<Path> := [];
    for i := 0 to |c.paths|
      invariant files == c.paths[..i]
    {
      files := files + [c.paths[i]];
    }
    assert files == c.paths;
    var handed, known, checkSteps, sent, counted, readSteps, written, saved, backoff, saveSteps;
    accepted, handed, known, checkSteps := CheckAndInsertSourceFile(checking, c, files, seen);
    sent, totalRead, counted, readSteps := PcapWorker(reading, c, handed);
    table, written, saved, backoff, saveSteps := PacketSaverWorker(saving, sent);
    totalPackets := CollectCounts([saved]);
    assert Total([saved]) == saved + Total([]);
    assert sent[..|sent|] == sent;
  }
}
