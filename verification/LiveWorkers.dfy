/** The two workers of a live capture: the listener that filters and batches, and the saver behind the broker. */
module LiveWorkers {
  import opened Wrappers
  import opened Capture
  import opened Aggregates
  import opened Pipeline
  import opened Workers

  /** Packets without two valid addresses are not captured. */
  predicate Captured(row: PacketRow) { row.srcIp.Addr? && row.dstIp.Addr? }

  function CapturedRows(packets: seq<PacketRow>): seq<PacketRow> {
    if packets == [] then []
    else
      CapturedRows(packets[..|packets| - 1])
          + (if Captured(packets[|packets| - 1]) then [packets[|packets| - 1]] else [])
  }

  /** The rows with two addresses, each as often as it was delivered, in the order of delivery. */
  ghost predicate Addressed(rows: seq<PacketRow>, packets: seq<PacketRow>) {
    && (forall x :: x in rows ==> x.srcIp.Addr? && x.dstIp.Addr?)
    && (forall x: PacketRow :: x.srcIp.Addr? && x.dstIp.Addr? ==> multiset(rows)[x] == multiset(packets)[x])
    && Subsequence(rows, packets)
  }

  lemma {:induction false} CapturedAddressed(packets: seq<PacketRow>)
    ensures Addressed(CapturedRows(packets), packets)
  {
    if packets == [] {
    } else {
      var before, last := packets[..|packets| - 1], packets[|packets| - 1];
      CapturedAddressed(before);
      assert packets == before + [last];
      SubsequenceExtends(CapturedRows(before), before, last);
      assert CapturedRows(packets) == if Captured(last) then CapturedRows(before) + [last] else CapturedRows(before);
    }
  }

  lemma CapturedNext(packets: seq<PacketRow>, i: nat)
    requires i < |packets|
    ensures CapturedRows(packets[..i + 1]) ==
      CapturedRows(packets[..i]) + if Captured(packets[i]) then [packets[i]] else []
  {
    assert packets[..i + 1][..i] == packets[..i];
  }

  lemma SentAddressed(attempted: seq<seq<PacketRow>>, residue: seq<PacketRow>, packets: seq<PacketRow>)
    requires Flatten(attempted) + residue == CapturedRows(packets)
    ensures Addressed(Flatten(attempted) + residue, packets)
  {
    CapturedAddressed(packets);
  }

  /** ListenOnNetwork over the packets its source delivers; the context is looked at once for every packet. Packets are
      taken until the context is done; the batches it attempts to send plus what is left in hand are exactly their
      captured rows. Noticing cancellation flushes what is in hand; a source that ends does not. */
  method ListenOnNetwork(env: Env, packets: seq<PacketRow>, batchSize: nat)
    returns (attempted: seq<seq<PacketRow>>, residue: seq<PacketRow>, taken: nat)
    ensures taken <= |packets| && (taken < |packets| ==> Done(env, taken)) && (taken > 0 ==> !Done(env, taken - 1))
    ensures Flatten(attempted) + residue == CapturedRows(packets[..taken])
    ensures Addressed(Flatten(attempted) + residue, packets[..taken])
    ensures taken < |packets| ==> residue == []
    ensures taken == |packets| ==> batchSize > 0 ==> |residue| < batchSize
    ensures forall i :: 0 <= i < |attempted| ==> attempted[i] != []
    ensures batchSize > 0 ==> forall i :: 0 <= i < |attempted| - (if taken < |packets| then 1 else 0) ==>
        |attempted[i]| == batchSize
    ensures batchSize > 0 ==> forall i :: 0 <= i < |attempted| ==> |attempted[i]| <= batchSize
  {
    attempted, taken := [], 0;
    var batch: seq<PacketRow> := [];
    while taken < |packets|
      invariant taken <= |packets| && (taken > 0 ==> !Done(env, taken - 1))
      invariant Flatten(attempted) + batch == CapturedRows(packets[..taken])
      invariant if batchSize > 0 then |batch| < batchSize else batch == []
      invariant forall i :: 0 <= i < |attempted| ==> attempted[i] != []
      invariant batchSize > 0 ==> forall i :: 0 <= i < |attempted| ==> |attempted[i]| == batchSize
    {
      var packet := packets[taken];
      if Done(env, taken) {
        if |batch| > 0 {
          FlattenAppend(attempted, batch);
          attempted := attempted + [batch];
        }
        SentAddressed(attempted, [], packets[..taken]);
        return attempted, [], taken;
      }
      CapturedNext(packets, taken);
      taken := taken + 1;
      if !Captured(packet) {
        continue;
      }
      batch := batch + [packet];
      if |batch| >= batchSize {
        FlattenAppend(attempted, batch);
        attempted, batch := attempted + [batch], [];
      }
    }
    residue := batch;
    SentAddressed(attempted, residue, packets[..taken]);
  }

  // ---- The saver --------------------------------------------------------------------------------

  /** What one ReadMessage yields: nothing in time, a broker error, a message that is no batch, or a batch. */
  datatype Message = TimedOut | ReadError | Garbled | Delivered(batch: seq<PacketRow>)

  datatype LivePc =
    | LRead                             // at the look at the context before a read
    | LWrite(batch: seq<PacketRow>)     // in BulkDatabaseCopy
    | LMark                             // copy failed, about to call onFailure
    | LAbort                            // about to cancel
    | LTally(n: nat, slow: bool)        // about to add to the counters
    | LRest                             // throttled
    | LDone

  datatype LiveSaver = LiveSaver(pc: LivePc, saved: nat, backoff: nat)

  datatype LiveLabel =
    | LStop | LGot(m: Message)
    | LCopied(batch: seq<PacketRow>, slow: bool) | LCopyFailed(batch: seq<PacketRow>)
    | LCrashed(ok: bool) | LAborted
    | LTallied
    | LRested | LWoken

  function LiveIdle(): LiveSaver { LiveSaver(LRead, 0, MIN_BACKOFF) }

  predicate LiveCan(v: LiveSaver, l: LiveLabel) {
    match l
    case LStop => v.pc.LRead?
    case LGot(_) => v.pc.LRead?
    case LCopied(batch, _) => v.pc == LWrite(batch)
    case LCopyFailed(batch) => v.pc == LWrite(batch) && batch != []
    case LCrashed(_) => v.pc.LMark?
    case LAborted => v.pc.LAbort?
    case LTallied => v.pc.LTally?
    case LRested => v.pc.LRest?
    case LWoken => v.pc.LRest?
  }

  function LiveNext(v: LiveSaver, l: LiveLabel): LiveSaver
    requires LiveCan(v, l)
  {
    match l
    case LStop => v.(pc := LDone)
    case LGot(m) => if m.Delivered? then v.(pc := LWrite(m.batch)) else v
    case LCopied(batch, slow) => v.(pc := LTally(|batch|, slow))
    case LCopyFailed(_) => v.(pc := LMark)
    case LCrashed(_) => v.(pc := LAbort)
    case LAborted => v.(pc := LDone)
    case LTallied =>
      if v.pc.slow then LiveSaver(LRest, v.saved + v.pc.n, Throttle(v.backoff))
      else LiveSaver(LRead, v.saved + v.pc.n, MIN_BACKOFF)
    case LRested => v.(pc := LRead)
    case LWoken => v.(pc := LDone)
  }

  /** What a live or a cancelled context rules out: on a context that is done nothing is read, no batch with rows is
      copied and "crashed" is not written. */
  predicate LiveAllowed(done: bool, l: LiveLabel) {
    match l
    case LStop => done
    case LGot(_) => !done
    case LCopied(batch, _) => !done || batch == []
    case LCrashed(ok) => ok ==> !done
    case LWoken => done
    case _ => true
  }

  function FollowLive(env: Env, ls: seq<LiveLabel>): Option<LiveSaver> {
    if ls == [] then Some(LiveIdle())
    else
      var n := |ls| - 1;
      var m := FollowLive(env, ls[..n]);
      if m.Some? && LiveCan(m.value, ls[n]) && LiveAllowed(Done(env, n), ls[n]) then Some(LiveNext(m.value, ls[n]))
          else None
  }

  /** What a saver did: the messages it read, the rows it copied, the rows of its failed copy, and which of its copies
      were slow. */
  datatype LiveLog = LiveLog(got: seq<Message>, copied: seq<PacketRow>, lost: seq<PacketRow>, slow: seq<bool>)

  function Logged(g: LiveLog, l: LiveLabel): LiveLog {
    match l
    case LGot(m) => g.(got := g.got + [m])
    case LCopied(batch, slow) => g.(copied := g.copied + batch, slow := g.slow + [slow])
    case LCopyFailed(batch) => g.(lost := g.lost + batch)
    case _ => g
  }

  function Log(ls: seq<LiveLabel>): LiveLog {
    if ls == [] then LiveLog([], [], [], []) else Logged(Log(ls[..|ls| - 1]), ls[|ls| - 1])
  }

  function DeliveredRows(ms: seq<Message>): seq<PacketRow> {
    if ms == [] then []
    else DeliveredRows(ms[..|ms| - 1]) + (if ms[|ms| - 1].Delivered? then ms[|ms| - 1].batch else [])
  }

  function Deliveries(ms: seq<Message>): nat {
    if ms == [] then 0 else Deliveries(ms[..|ms| - 1]) + (if ms[|ms| - 1].Delivered? then 1 else 0)
  }

  function InHand(v: LiveSaver): seq<PacketRow> { if v.pc.LWrite? then v.pc.batch else [] }

  lemma DeliveriesGrow(ms: seq<Message>, m: Message)
    ensures DeliveredRows(ms + [m]) == DeliveredRows(ms) + if m.Delivered? then m.batch else []
    ensures Deliveries(ms + [m]) == Deliveries(ms) + if m.Delivered? then 1 else 0
  {
    assert (ms + [m])[..|ms|] == ms;
  }

  lemma BackoffGrows(writes: seq<bool>, slow: bool)
    ensures BackoffAfter(writes + [slow]) == if slow then Throttle(BackoffAfter(writes)) else MIN_BACKOFF
  {
    assert (writes + [slow])[..|writes|] == writes;
  }

  /** The session has been marked crashed, or is about to be. */
  predicate Crashed(g: LiveLog) { g.lost != [] }

  /** Every delivered row was copied, is in hand, or was lost in a failed copy, after which no read is made. */
  predicate RowsAccounted(g: LiveLog, v: LiveSaver) {
    && (Crashed(g) ==> v.pc.LMark? || v.pc.LAbort? || v.pc.LDone?)
    && DeliveredRows(g.got) == g.copied + InHand(v) + g.lost
    && (Crashed(g) ==> g.got != [] && g.got[|g.got| - 1] == Delivered(g.lost))
    && (v.pc.LWrite? ==> g.got != [] && g.got[|g.got| - 1] == Delivered(v.pc.batch))
  }

  /** There is one copy per delivery, the count is the rows copied, and the throttle is the one the copies call for. */
  predicate CopiesAccounted(g: LiveLog, v: LiveSaver) {
    && (Crashed(g) ==> v.pc.LMark? || v.pc.LAbort? || v.pc.LDone?)
    && Deliveries(g.got) == |g.slow| + (if v.pc.LWrite? || Crashed(g) then 1 else 0)
    && |g.copied| == v.saved + (if v.pc.LTally? then v.pc.n else 0)
    && BackoffAfter(g.slow) == if !v.pc.LTally? then v.backoff else if v.pc.slow then Throttle(v.backoff)
        else MIN_BACKOFF
  }

  lemma RowsStep(g: LiveLog, v: LiveSaver, l: LiveLabel)
    requires RowsAccounted(g, v) && LiveCan(v, l)
    ensures RowsAccounted(Logged(g, l), LiveNext(v, l))
  {
    if l.LGot? { DeliveriesGrow(g.got, l.m); }
  }

  lemma CopiesStep(g: LiveLog, v: LiveSaver, l: LiveLabel)
    requires CopiesAccounted(g, v) && LiveCan(v, l)
    ensures CopiesAccounted(Logged(g, l), LiveNext(v, l))
  {
    if l.LGot? {
      DeliveriesGrow(g.got, l.m);
    } else if l.LCopied? {
      BackoffGrows(g.slow, l.slow);
    }
  }

  /** Whatever a live saver has been through, its rows and copies are accounted for. */
  lemma {:induction false} LiveAccounted(env: Env, ls: seq<LiveLabel>)
    requires FollowLive(env, ls).Some?
    ensures RowsAccounted(Log(ls), FollowLive(env, ls).value) && CopiesAccounted(Log(ls), FollowLive(env, ls).value)
  {
    if ls == [] {
    } else {
      var before := ls[..|ls| - 1];
      LiveAccounted(env, before);
      RowsStep(Log(before), FollowLive(env, before).value, ls[|ls| - 1]);
      CopiesStep(Log(before), FollowLive(env, before).value, ls[|ls| - 1]);
    }
  }

  lemma LiveThen(env: Env, ls: seq<LiveLabel>, l: LiveLabel)
    requires FollowLive(env, ls).Some? && LiveCan(FollowLive(env, ls).value, l) && LiveAllowed(Done(env, |ls|), l)
    ensures FollowLive(env, ls + [l]) == Some(LiveNext(FollowLive(env, ls).value, l))
        && Log(ls + [l]) == Logged(Log(ls), l)
  {
    assert (ls + [l])[..|ls|] == ls;
  }

  /** Like the pipeline's workers a live saver has a moment of cancellation. */
  lemma {:induction false} LiveHeeds(env: Env, ls: seq<LiveLabel>, i: nat)
    requires FollowLive(env, ls).Some? && i < |ls|
    ensures LiveAllowed(Done(env, i), ls[i])
  {
    if i == |ls| - 1 {
    } else {
      LiveHeeds(env, ls[..|ls| - 1], i);
    }
  }

  /** One BulkDatabaseCopy and what follows it: counting and throttling, or marking the session and cancelling. On a
      context that is done only an empty batch gets through. */
  method CopyLive(env: Env, batch: seq<PacketRow>, saved: nat, backoff: nat, steps: seq<LiveLabel>)
    returns (ok: bool, slow: bool, trace: seq<LiveLabel>)
    requires FollowLive(env, steps) == Some(LiveSaver(LWrite(batch), saved, backoff))
    ensures |steps| <= |trace|
    ensures Done(env, |steps|) && batch != [] ==> !ok
    ensures !ok ==> batch != [] && (Done(env, |steps|) || env.faults)
    ensures Log(trace) == Logged(Log(steps), if ok then LCopied(batch, slow) else LCopyFailed(batch))
    ensures FollowLive(env, trace) == Some(if !ok then LiveSaver(LDone, saved, backoff)
                                           else if slow then LiveSaver(LRest, saved + |batch|, Throttle(backoff))
                                           else LiveSaver(LRead, saved + |batch|, MIN_BACKOFF))
  {
    var fault := Fails(env);
    slow := *;
    ok := batch == [] || !(Done(env, |steps|) || fault);
    if ok {
      LiveThen(env, steps, LCopied(batch, slow));
      trace := steps + [LCopied(batch, slow)];
      LiveThen(env, trace, LTallied);
      trace := trace + [LTallied];
    } else {
      LiveThen(env, steps, LCopyFailed(batch));
      trace := steps + [LCopyFailed(batch)];
      var lost := Fails(env);
      var marked := LCrashed(!Done(env, |trace|) && !lost);
      LiveThen(env, trace, marked);
      trace := trace + [marked];
      LiveThen(env, trace, LAborted);
      trace := trace + [LAborted];
    }
  }

  /** The select that waits out the throttle, unless the context is cancelled first. */
  method RestLive(env: Env, saved: nat, backoff: nat, steps: seq<LiveLabel>)
      returns (woken: bool, trace: seq<LiveLabel>)
    requires FollowLive(env, steps) == Some(LiveSaver(LRest, saved, backoff))
    ensures |steps| <= |trace|
    ensures woken ==> Done(env, |steps|)
    ensures Log(trace) == Log(steps) && FollowLive(env, trace)
        == Some(LiveSaver(if woken then LDone else LRead, saved, backoff))
  {
    var wake: bool := *;
    woken := Done(env, |steps|) && wake;
    LiveThen(env, steps, if woken then LWoken else LRested);
    trace := steps + [if woken then LWoken else LRested];
  }

  /** What the loop does with one message. */
  method HandleMessage(env: Env, message: Message, saved: nat, backoff: nat, steps: seq<LiveLabel>)
    returns (stopped: bool, crashed: bool, now: nat, throttle: nat, trace: seq<LiveLabel>)
    requires FollowLive(env, steps) == Some(LiveSaver(LRead, saved, backoff)) && !Done(env, |steps|)
    ensures |steps| <= |trace| && FollowLive(env, trace)
        == Some(LiveSaver(if stopped then LDone else LRead, now, throttle))
    ensures Log(trace).got == Log(steps).got + [message]
    ensures Log(trace).copied == Log(steps).copied + if message.Delivered? && !crashed then message.batch else []
    ensures Log(trace).lost == Log(steps).lost + if message.Delivered? && crashed then message.batch else []
    ensures crashed ==> stopped && message.Delivered? && message.batch != [] && (Done(env, |trace|) || env.faults)
    ensures stopped && !crashed ==> Done(env, |trace|)
  {
    stopped, crashed, now, throttle := false, false, saved, backoff;
    LiveThen(env, steps, LGot(message));
    trace := steps + [LGot(message)];
    if !message.Delivered? {
      return;
    }
    var ok, slow;
    ok, slow, trace := CopyLive(env, message.batch, saved, backoff, trace);
    if !ok {
      stopped, crashed := true, true;
      return;
    }
    now := saved + |message.batch|;
    if slow {
      throttle := backoff * MULTIPLIER;
      if throttle > MAX_BACKOFF {
        throttle := MAX_BACKOFF;
      }
      stopped, trace := RestLive(env, now, throttle, trace);
    } else {
      throttle := MIN_BACKOFF;
    }
  }

  /** The live saver over a stretch of messages. It follows the automaton above; it reads the messages in order and,
      unless it stops, all of them; it stops early only when the context is cancelled, or right after the read whose
      copy failed, which is exactly when it marks the session crashed. The rows it copied, its count and its throttle
      are those of the batches it read, less the failed one. */
  method SaveLive(env: Env, messages: seq<Message>)
    returns (read: nat, saved: nat, stopped: bool, backoff: nat, trace: seq<LiveLabel>)
    ensures FollowLive(env, trace) == Some(LiveSaver(if stopped then LDone else LRead, saved, backoff))
    ensures read <= |messages| && Log(trace).got == messages[..read]
    ensures !stopped ==> read == |messages|
    ensures DeliveredRows(messages[..read]) == Log(trace).copied + Log(trace).lost && saved == |Log(trace).copied|
    ensures Crashed(Log(trace)) ==> stopped && read > 0 && messages[read - 1] == Delivered(Log(trace).lost)
    ensures Crashed(Log(trace)) ==> Done(env, |trace|) || env.faults
    ensures stopped && !Crashed(Log(trace)) ==> Done(env, |trace|)
    ensures backoff == BackoffAfter(Log(trace).slow)
    ensures |Log(trace).slow| == Deliveries(messages[..read]) - if Crashed(Log(trace)) then 1 else 0
  {
    read, saved, stopped, backoff, trace := 0, 0, false, MIN_BACKOFF, [];
    var crashed := false;
    while read < |messages| && !stopped
      invariant FollowLive(env, trace) == Some(LiveSaver(if stopped then LDone else LRead, saved, backoff))
      invariant read <= |messages| && Log(trace).got == messages[..read]
      invariant crashed == Crashed(Log(trace))
      invariant crashed ==> stopped && (Done(env, |trace|) || env.faults)
      invariant stopped && !crashed ==> Done(env, |trace|)
      decreases |messages| - read, !stopped
    {
      if Done(env, |trace|) {
        LiveThen(env, trace, LStop);
        trace, stopped := trace + [LStop], true;
      } else {
        stopped, crashed, saved, backoff, trace := HandleMessage(env, messages[read], saved, backoff, trace);
        read := read + 1;
      }
    }
    LiveAccounted(env, trace);
  }
}
