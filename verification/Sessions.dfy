/**
 The life of live capture sessions under concurrent starts, stops, crashes and shutdowns. Every pipeline's
 context is a child of the daemon's; a status write made with a dead context does not take effect.
*/
module Sessions {
  import opened Wrappers

  type Id = nat

  datatype Status = Starting | Running | Finished | Crashed

  /** How far StartPipeline got. */
  datatype Phase = Opened | Registered | Started | Returned

  /** `savers` of the pipeline are running, and `aborting` have called onFailure and are about to cancel. */
  datatype Pipeline = Pipeline(session: Id, cancelled: bool, phase: Phase, savers: nat, aborting: nat)

  /** A shutdown request: stopping the sessions it found registered, between the critical section and the status
      write of one of these stops, or done. */
  datatype Shutdown = Stopping(left: set<Id>) | Writing(id: Id, left: set<Id>) | Over

  /** `parse` is the session that a text denotes, and `name` the text under which a session is registered.
      `inserting` are the StartSession calls whose update matched no row, by interface; `stops` are the StopPipeline
      calls that have left their critical section and are about to write. */
  datatype World = World(parse: string -> Option<Id>, name: Id -> string, daemonDone: bool, pipes: seq<Pipeline>,
      registry: map<Id, nat>,
                         iface: map<Id, string>, status: map<Id, Status>,
                         inserting: multiset<string>, stops: multiset<Id>, shutdowns: seq<Shutdown>)

  datatype Action =
    | StartReused(iface: string, id: Id)      // StartSession's update takes over a crashed session of the interface
    | StartLook(iface: string)                // it matches no row
    | StartInsert(iface: string, id: Id)      // and StartSession inserts one
    | StartRefused                            // an error before the session exists
    | Register(p: nat)
    | SpawnSaver(p: nat)
    | Spawned(p: nat)                         // all savers and the listener run
    | SpawnFailed(p: nat)                     // a consumer could not be created; StartPipeline returns
    | MarkRunning(p: nat, ok: bool)           // the write reaches the database if `ok`
    | MarkCrashed(p: nat, ok: bool)           // onFailure of one of the savers
    | CancelPipe(p: nat)                      // the cancel that follows
    | SaverLeaves(p: nat)                     // a saver notices that its context is done
    | StopLock(text: string)                  // critical section of StopPipeline
    | StopWrite(id: Id, ok: bool)             // its status write
    | ShutBegin                               // StopAll takes its list of sessions
    | ShutLock(q: nat, id: Id)                // the critical section of the stop of one of them
    | ShutWrite(q: nat, ok: bool)             // its status write
    | ShutCancel(q: nat)                      // all are stopped; the daemon's context is cancelled

  function Init(parse: string -> Option<Id>, name: Id -> string): World {
    World(parse, name, false, [], map[], map[], map[], multiset{}, multiset{}, [])
  }

  /** The text under which a session is registered denotes it. */
  ghost predicate Named(parse: string -> Option<Id>, name: Id -> string) {
    forall id: Id :: parse(name(id)) == Some(id)
  }

  predicate Dead(w: World, p: nat)
    requires p < |w.pipes|
  {
    w.daemonDone || w.pipes[p].cancelled
  }

  /** The rows StartSession's update matches: 'stopped' is never written, so only crashed sessions are taken over. */
  function Reusable(w: World, iface: string): set<Id> {
    set id | id in w.status && id in w.iface && w.iface[id] == iface && w.status[id] == Crashed
  }

  predicate Enabled(w: World, a: Action) {
    match a
    case StartReused(iface, id) => !w.daemonDone && id in Reusable(w, iface)
    case StartLook(iface) => !w.daemonDone && Reusable(w, iface) == {}
    case StartInsert(iface, id) => !w.daemonDone && iface in w.inserting && id !in w.status && id !in w.iface
    case StartRefused => true
    case Register(p) => p < |w.pipes| && w.pipes[p].phase.Opened?
    case SpawnSaver(p) => p < |w.pipes| && w.pipes[p].phase.Registered?
    case Spawned(p) => p < |w.pipes| && w.pipes[p].phase.Registered?
        && (w.pipes[p].savers + w.pipes[p].aborting > 0 || Dead(w, p))
    case SpawnFailed(p) => p < |w.pipes| && w.pipes[p].phase.Registered?
    case MarkRunning(p, _) => p < |w.pipes| && w.pipes[p].phase.Started?
    case MarkCrashed(p, _) => p < |w.pipes| && w.pipes[p].savers > 0
    case CancelPipe(p) => p < |w.pipes| && w.pipes[p].aborting > 0
    case SaverLeaves(p) => p < |w.pipes| && w.pipes[p].savers > 0 && Dead(w, p)
    case StopLock(_) => true
    case StopWrite(id, _) => id in w.stops
    case ShutBegin => true
    case ShutLock(q, id) => q < |w.shutdowns| && w.shutdowns[q].Stopping? && id in w.shutdowns[q].left
    case ShutWrite(q, _) => q < |w.shutdowns| && w.shutdowns[q].Writing?
    case ShutCancel(q) => q < |w.shutdowns| && w.shutdowns[q] == Stopping({})
  }

  /** UpdateSession by pipeline p with its own context. */
  function Write(w: World, p: nat, s: Status, ok: bool): map<Id, Status>
    requires p < |w.pipes|
  {
    if !ok || Dead(w, p) || w.pipes[p].session !in w.status then w.status else w.status[w.pipes[p].session := s]
  }

  /** UpdateSession by a stop, with the daemon's context. */
  function WriteFinished(w: World, id: Id, ok: bool): map<Id, Status> {
    if !ok || w.daemonDone || id !in w.status then w.status else w.status[id := Finished]
  }

  function SetPipe(w: World, p: nat, pipe: Pipeline): World
    requires p < |w.pipes|
  {
    w.(pipes := w.pipes[p := pipe])
  }

  function SetShutdown(w: World, q: nat, shutdown: Shutdown): World
    requires q < |w.shutdowns|
  {
    w.(shutdowns := w.shutdowns[q := shutdown])
  }

  /** The critical section of StopPipeline: cancel and forget the registered pipeline, if there is one. */
  function Locked(w: World, id: Id): World {
    if id in w.registry && w.registry[id] < |w.pipes| then
      var p := w.registry[id];
      SetPipe(w, p, w.pipes[p].(cancelled := true)).(registry := w.registry - {id})
    else w
  }

  /** The critical section on a text that denotes the session: only its registered name is found in the registry. */
  function Looked(w: World, text: string, id: Id): World { if text == w.name(id) then Locked(w, id) else w }

  function Apply(w: World, a: Action): World
    requires Enabled(w, a)
  {
    match a
    case StartReused(iface, id) =>
      w.(pipes := w.pipes + [Pipeline(id, false, Opened, 0, 0)],
         status := map k | k in w.status :: if k in Reusable(w, iface) then Starting else w.status[k])
    case StartLook(iface) => w.(inserting := w.inserting + multiset{iface})
    case StartInsert(iface, id) =>
      w.(inserting := w.inserting - multiset{iface}, pipes := w.pipes + [Pipeline(id, false, Opened, 0, 0)],
         iface := w.iface[id := iface], status := w.status[id := Starting])
    case StartRefused => w
    case Register(p) =>
        SetPipe(w, p, w.pipes[p].(phase := Registered)).(registry := w.registry[w.pipes[p].session := p])
    case SpawnSaver(p) => SetPipe(w, p, w.pipes[p].(savers := w.pipes[p].savers + 1))
    case Spawned(p) => SetPipe(w, p, w.pipes[p].(phase := Started))
    case SpawnFailed(p) => SetPipe(w, p, w.pipes[p].(phase := Returned))
    case MarkRunning(p, ok) => SetPipe(w, p, w.pipes[p].(phase := Returned)).(status := Write(w, p, Running, ok))
    case MarkCrashed(p, ok) =>
      SetPipe(w, p, w.pipes[p].(savers := w.pipes[p].savers - 1, aborting := w.pipes[p].aborting + 1)).(status :=
          Write(w, p, Crashed, ok))
    case CancelPipe(p) => SetPipe(w, p, w.pipes[p].(cancelled := true, aborting := w.pipes[p].aborting - 1))
    case SaverLeaves(p) => SetPipe(w, p, w.pipes[p].(savers := w.pipes[p].savers - 1))
    case StopLock(text) =>
      if w.parse(text).None? then w
      else Looked(w, text, w.parse(text).value).(stops := w.stops + multiset{w.parse(text).value})
    case StopWrite(id, ok) => w.(stops := w.stops - multiset{id}, status := WriteFinished(w, id, ok))
    case ShutBegin => w.(shutdowns := w.shutdowns + [Stopping(w.registry.Keys)])
    case ShutLock(q, id) => SetShutdown(Locked(w, id), q, Writing(id, w.shutdowns[q].left - {id}))
    case ShutWrite(q, ok) =>
      SetShutdown(w, q, Stopping(w.shutdowns[q].left)).(status := WriteFinished(w, w.shutdowns[q].id, ok))
    case ShutCancel(q) => SetShutdown(w, q, Over).(daemonDone := true)
  }

  predicate Legal(w: World, run: seq<Action>)
    decreases |run|
  {
    run == [] || (Enabled(w, run[0]) && Legal(Apply(w, run[0]), run[1..]))
  }

  function After(w: World, run: seq<Action>): World
    requires Legal(w, run)
    decreases |run|
  {
    if run == [] then w else After(Apply(w, run[0]), run[1..])
  }

  // ---- The invariant ----------------------------------------------------------------------------

  /** Sessions of pipelines have rows; registered pipelines exist and are registered under their own session; the
      daemon's context is cancelled exactly when a shutdown is over. */
  ghost predicate Consistent(w: World) {
    && Named(w.parse, w.name)
    && (forall p :: 0 <= p < |w.pipes| ==> w.pipes[p].session in w.status)
    && w.status.Keys == w.iface.Keys
    && (forall id :: id in w.registry ==> w.registry[id] < |w.pipes| && w.pipes[w.registry[id]].session == id)
    && (w.daemonDone <==> exists q :: 0 <= q < |w.shutdowns| && w.shutdowns[q].Over?)
  }

  lemma ConsistentStart(w: World, a: Action)
    requires Consistent(w) && Enabled(w, a) && (a.StartReused? || a.StartInsert?)
    ensures Consistent(Apply(w, a))
  {
  }

  lemma ConsistentLocked(w: World, id: Id)
    requires Consistent(w)
    ensures Consistent(Locked(w, id)) && Locked(w, id).shutdowns == w.shutdowns
  {
  }

  lemma ConsistentCancel(w: World, q: nat)
    requires Consistent(w) && Enabled(w, ShutCancel(q))
    ensures Consistent(Apply(w, ShutCancel(q)))
  {
    assert Apply(w, ShutCancel(q)).shutdowns[q].Over?;
  }

  lemma ConsistentShutdown(w: World, a: Action)
    requires Consistent(w) && Enabled(w, a) && (a.ShutBegin? || a.ShutLock? || a.ShutWrite?)
    ensures Consistent(Apply(w, a))
  {
    var t := Apply(w, a);
    if a.ShutLock? { ConsistentLocked(w, a.id); }
    forall q | 0 <= q < |w.shutdowns| && w.shutdowns[q].Over? ensures t.shutdowns[q].Over? { }
  }

  lemma ConsistentPipe(w: World, a: Action)
    requires Consistent(w) && Enabled(w, a)
    requires a.Register? || a.SpawnSaver? || a.Spawned? || a.SpawnFailed? || a.MarkRunning? || a.MarkCrashed?
        || a.CancelPipe? || a.SaverLeaves?
    ensures Consistent(Apply(w, a))
  {
    var t := Apply(w, a);
    assert t.parse == w.parse && t.name == w.name && t.shutdowns == w.shutdowns && t.daemonDone == w.daemonDone
        && t.iface == w.iface;
  }

  /** The worlds differ only in statuses and in calls under way. */
  lemma ConsistentAlike(w: World, t: World)
    requires Consistent(w) && t.parse == w.parse && t.name == w.name && t.pipes == w.pipes && t.registry == w.registry
    requires t.status.Keys == w.status.Keys && t.iface == w.iface
    requires t.shutdowns == w.shutdowns && t.daemonDone == w.daemonDone
    ensures Consistent(t)
  {
  }

  lemma ConsistentLook(w: World, text: string)
    requires Consistent(w)
    ensures Consistent(Apply(w, StopLock(text)))
  {
    if w.parse(text).Some? {
      var id := w.parse(text).value;
      ConsistentLocked(w, id);
      ConsistentAlike(Looked(w, text, id), Apply(w, StopLock(text)));
    }
  }

  lemma ConsistentStop(w: World, a: Action)
    requires Consistent(w) && Enabled(w, a) && (a.StopWrite? || a.StartLook?)
    ensures Consistent(Apply(w, a))
  {
    ConsistentAlike(w, Apply(w, a));
  }

  lemma ConsistentStep(w: World, a: Action)
    requires Consistent(w) && Enabled(w, a)
    ensures Consistent(Apply(w, a))
  {
    if a.StartReused? || a.StartInsert? {
      ConsistentStart(w, a);
    } else if a.StopLock? {
      ConsistentLook(w, a.text);
    } else if a.StopWrite? || a.StartLook? {
      ConsistentStop(w, a);
    } else if a.ShutBegin? || a.ShutLock? || a.ShutWrite? {
      ConsistentShutdown(w, a);
    } else if a.ShutCancel? {
      ConsistentCancel(w, a.q);
    } else if !a.StartRefused? {
      ConsistentPipe(w, a);
    }
  }

  /** Every reachable world is consistent. */
  lemma {:induction false} ConsistentAlong(w: World, run: seq<Action>)
    requires Consistent(w) && Legal(w, run)
    ensures Consistent(After(w, run))
    decreases |run|
  {
    if run == [] {
    } else {
      ConsistentStep(w, run[0]);
      ConsistentAlong(Apply(w, run[0]), run[1..]);
    }
  }

  // ---- Stop is final ----------------------------------------------------------------------------

  /** A pipeline's own status writes. */
  predicate WriteBy(a: Action, p: nat) { (a.MarkRunning? || a.MarkCrashed?) && a.p == p }

  /** The pipeline of the session is as far as it was, or further. */
  predicate Onward(pipe: Pipeline, after: Pipeline) {
    && after.session == pipe.session && (pipe.cancelled ==> after.cancelled)
    && (pipe.phase.Returned? ==> after.phase.Returned? && after.savers <= pipe.savers)
  }

  lemma LockedPipe(w: World, id: Id, p: nat)
    requires p < |w.pipes|
    ensures p < |Locked(w, id).pipes| && Onward(w.pipes[p], Locked(w, id).pipes[p]) && Locked(w, id).status == w.status
    ensures Locked(w, id).daemonDone == w.daemonDone && Locked(w, id).shutdowns == w.shutdowns
        && Locked(w, id).stops == w.stops
  {
  }

  predicate Locks(a: Action) { a.StopLock? || a.ShutLock? }

  lemma OtherPipeStep(w: World, a: Action, p: nat)
    requires Enabled(w, a) && p < |w.pipes| && !Locks(a)
    ensures p < |Apply(w, a).pipes| && Onward(w.pipes[p], Apply(w, a).pipes[p])
        && (w.daemonDone ==> Apply(w, a).daemonDone)
  {
  }

  /** What a step can do to a pipeline. */
  lemma PipeStep(w: World, a: Action, p: nat)
    requires Enabled(w, a) && p < |w.pipes|
    ensures p < |Apply(w, a).pipes| && Onward(w.pipes[p], Apply(w, a).pipes[p])
        && (w.daemonDone ==> Apply(w, a).daemonDone)
  {
    if a.StopLock? {
      if w.parse(a.text).Some? { LockedPipe(w, w.parse(a.text).value, p); }
    } else if a.ShutLock? {
      LockedPipe(w, a.id, p);
    } else {
      OtherPipeStep(w, a, p);
    }
  }

  /** Pipelines are only added, for the session that is started. */
  lemma NewPipe(w: World, a: Action, p: nat)
    requires Enabled(w, a) && |w.pipes| <= p < |Apply(w, a).pipes|
    ensures (a.StartReused? || a.StartInsert?) && Apply(w, a).pipes[p].session == a.id
  {
  }

  /** Critical sections, registrations and the like leave the statuses alone. */
  predicate Writes(a: Action) {
    a.StartReused? || a.StartInsert? || a.MarkRunning? || a.MarkCrashed? || a.StopWrite? || a.ShutWrite?
  }

  lemma LockWritesNothing(w: World, a: Action)
    requires Enabled(w, a) && Locks(a)
    ensures Apply(w, a).status == w.status
  {
  }

  lemma NoWrite(w: World, a: Action)
    requires Enabled(w, a) && !Writes(a)
    ensures Apply(w, a).status == w.status
  {
    if Locks(a) { LockWritesNothing(w, a); }
  }

  /** What a step can do to a session's status. */
  predicate Changes(w: World, a: Action, id: Id, now: Status)
    requires id in w.status && Enabled(w, a)
  {
    || now == w.status[id] || now == Finished
    || (a.StartReused? && w.status[id] == Crashed && id in w.iface && w.iface[id] == a.iface)
    || ((a.MarkRunning? || a.MarkCrashed?) && !Dead(w, a.p) && w.pipes[a.p].session == id)
  }

  lemma StartChange(w: World, a: Action, id: Id)
    requires Enabled(w, a) && (a.StartReused? || a.StartInsert?) && id in w.status
    ensures id in Apply(w, a).status && Changes(w, a, id, Apply(w, a).status[id])
  {
  }

  lemma PipeChange(w: World, a: Action, id: Id)
    requires Enabled(w, a) && (a.MarkRunning? || a.MarkCrashed?) && id in w.status
    ensures id in Apply(w, a).status && Changes(w, a, id, Apply(w, a).status[id])
  {
  }

  lemma StopChange(w: World, a: Action, id: Id)
    requires Enabled(w, a) && (a.StopWrite? || a.ShutWrite?) && id in w.status
    ensures id in Apply(w, a).status && Changes(w, a, id, Apply(w, a).status[id])
  {
  }

  lemma StatusChange(w: World, a: Action, id: Id)
    requires Enabled(w, a) && id in w.status
    ensures id in Apply(w, a).status && Changes(w, a, id, Apply(w, a).status[id])
  {
    if a.StartReused? || a.StartInsert? {
      StartChange(w, a, id);
    } else if a.MarkRunning? || a.MarkCrashed? {
      PipeChange(w, a, id);
    } else if a.StopWrite? || a.ShutWrite? {
      StopChange(w, a, id);
    } else {
      NoWrite(w, a);
    }
  }

  lemma DeadWritesNothing(w: World, a: Action, p: nat)
    requires Enabled(w, a) && p < |w.pipes| && Dead(w, p) && WriteBy(a, p)
    ensures Apply(w, a).status == w.status
  {
  }

  lemma DeadStaysDead(w: World, a: Action, p: nat)
    requires Enabled(w, a) && p < |w.pipes| && Dead(w, p)
    ensures p < |Apply(w, a).pipes| && Dead(Apply(w, a), p) && Apply(w, a).pipes[p].session == w.pipes[p].session
    ensures WriteBy(a, p) ==> Apply(w, a).status == w.status
  {
    PipeStep(w, a, p);
    if WriteBy(a, p) { DeadWritesNothing(w, a, p); }
  }

  lemma InitConsistent(parse: string -> Option<Id>, name: Id -> string)
    requires Named(parse, name)
    ensures Consistent(Init(parse, name))
  {
  }

  /** The pipeline is registered under that very text. */
  ghost predicate Finds(w: World, text: string, p: nat) {
    exists id :: id in w.registry && w.registry[id] == p && text == w.name(id)
  }

  /** What the critical section of a stop does: it cancels the pipeline registered under that very text, leaves every
      other as it is, and goes on to write "finished" on the session the text denotes, registered or not. */
  lemma StopCancelsExactly(w: World, text: string, p: nat)
    requires Consistent(w) && p < |w.pipes|
    ensures |Apply(w, StopLock(text)).pipes| == |w.pipes|
    ensures Apply(w, StopLock(text)).pipes[p] ==
      if Finds(w, text, p) then w.pipes[p].(cancelled := true) else w.pipes[p]
    ensures Apply(w, StopLock(text)).stops == w.stops + if w.parse(text).Some? then multiset{w.parse(text).value}
        else multiset{}
  {
    forall id | id in w.registry && text == w.name(id) ensures w.parse(text) == Some(id) { }
    if w.parse(text).Some? && text == w.name(w.parse(text).value) && w.parse(text).value in w.registry {
      var id := w.parse(text).value;
      assert w.registry[id] == p ==> id in w.registry && text == w.name(id);
    }
  }

  lemma StopKills(w: World, id: Id)
    requires Consistent(w) && id in w.registry
    ensures var t := Apply(w, StopLock(w.name(id)));
        id !in t.registry && w.registry[id] < |t.pipes| && Dead(t, w.registry[id])
  {
  }

  /** A step of a run, from the run without its first action. */
  lemma Shift(w: World, run: seq<Action>, k: nat)
    requires Legal(w, run) && 0 < k <= |run| && Legal(Apply(w, run[0]), run[1..][..k - 1])
    ensures Legal(w, run[..k]) && After(w, run[..k]) == After(Apply(w, run[0]), run[1..][..k - 1])
  {
    assert run[..k][1..] == run[1..][..k - 1];
  }

  lemma {:induction false} DeadIsSilent(w: World, p: nat, run: seq<Action>, k: nat)
    requires p < |w.pipes| && Dead(w, p) && Legal(w, run) && k < |run| && WriteBy(run[k], p)
    ensures Legal(w, run[..k]) && Legal(w, run[..k + 1])
    ensures After(w, run[..k + 1]).status == After(w, run[..k]).status
    decreases |run|
  {
    DeadStaysDead(w, run[0], p);
    if k == 0 {
      assert run[..1][1..] == [];
    } else {
      DeadIsSilent(Apply(w, run[0]), p, run[1..], k - 1);
      Shift(w, run, k);
      Shift(w, run, k + 1);
    }
  }

  /** Once StopPipeline on the name of a registered session has left its critical section, no status write of the
      pipeline that was registered takes effect for the rest of any run. */
  lemma {:induction false} StopIsFinal(w: World, run: seq<Action>, i: nat, k: nat, id: Id, p: nat)
    requires Consistent(w) && Legal(w, run) && i < k < |run| && Legal(w, run[..i])
    requires run[i] == StopLock(After(w, run[..i]).name(id)) && id in After(w, run[..i]).registry
        && After(w, run[..i]).registry[id] == p
    requires WriteBy(run[k], p)
    ensures Legal(w, run[..k]) && Legal(w, run[..k + 1])
    ensures After(w, run[..k + 1]).status == After(w, run[..k]).status
    decreases |run|
  {
    var w', rest := Apply(w, run[0]), run[1..];
    ConsistentStep(w, run[0]);
    if i == 0 {
      assert run[..0] == [];
      StopKills(w, id);
      DeadIsSilent(w', p, rest, k - 1);
    } else {
      assert run[..i][1..] == rest[..i - 1];
      StopIsFinal(w', rest, i - 1, k - 1, id, p);
    }
    Shift(w, run, k);
    Shift(w, run, k + 1);
  }

  // ---- How long a finished status lasts ---------------------------------------------------------

  /** The pipeline can make no further status write: it is dead, or StartPipeline has returned and no saver is left. */
  predicate Silent(w: World, p: nat)
    requires p < |w.pipes|
  {
    Dead(w, p) || (w.pipes[p].phase.Returned? && w.pipes[p].savers == 0)
  }

  predicate AllSilent(w: World, id: Id) {
    forall p :: 0 <= p < |w.pipes| && w.pipes[p].session == id ==> Silent(w, p)
  }

  lemma SilentStaysSilent(w: World, a: Action, p: nat)
    requires Enabled(w, a) && p < |w.pipes| && Silent(w, p)
    ensures p < |Apply(w, a).pipes| && Silent(Apply(w, a), p) && Apply(w, a).pipes[p].session == w.pipes[p].session
  {
    PipeStep(w, a, p);
  }

  /** A finished status is changed only by a pipeline of the session that is not silent. */
  lemma FinishedKept(w: World, id: Id, a: Action)
    requires Consistent(w) && id in w.status && w.status[id] == Finished && AllSilent(w, id) && Enabled(w, a)
    ensures var t := Apply(w, a); id in t.status && t.status[id] == Finished
  {
    StatusChange(w, a, id);
  }

  lemma FinishedStep(w: World, id: Id, a: Action)
    requires Consistent(w) && id in w.status && w.status[id] == Finished && AllSilent(w, id) && Enabled(w, a)
    ensures var t := Apply(w, a); id in t.status && t.status[id] == Finished && AllSilent(t, id)
  {
    var t := Apply(w, a);
    FinishedKept(w, id, a);
    forall p | 0 <= p < |t.pipes| && t.pipes[p].session == id ensures Silent(t, p) {
      if p < |w.pipes| {
        PipeStep(w, a, p);
        SilentStaysSilent(w, a, p);
      } else {
        NewPipe(w, a, p);
      }
    }
  }

  /** A finished session whose pipelines are all silent stays finished in every run: it is never taken over and
      no crash or start write reaches it. */
  lemma {:induction false} FinishedForever(w: World, id: Id, run: seq<Action>)
    requires Consistent(w) && id in w.status && w.status[id] == Finished && AllSilent(w, id) && Legal(w, run)
    ensures var t := After(w, run); id in t.status && t.status[id] == Finished
    decreases |run|
  {
    if run == [] {
    } else {
      ConsistentStep(w, run[0]);
      FinishedStep(w, id, run[0]);
      FinishedForever(Apply(w, run[0]), id, run[1..]);
    }
  }

  /** A run put after one step. */
  lemma Prepend(w: World, a: Action, run: seq<Action>)
    requires Enabled(w, a) && Legal(Apply(w, a), run)
    ensures Legal(w, [a] + run) && After(w, [a] + run) == After(Apply(w, a), run)
  {
    assert ([a] + run)[1..] == run;
  }

  /** A pipeline that is not silent can still overwrite its session's status. */
  lemma {:induction false} SilenceBroken(w: World, p: nat) returns (run: seq<Action>)
    requires Consistent(w) && p < |w.pipes| && !Silent(w, p)
    ensures Legal(w, run) && After(w, run).status.Keys == w.status.Keys
        && After(w, run).status[w.pipes[p].session] != Finished
    decreases if w.pipes[p].savers > 0 then 0 else if w.pipes[p].phase.Opened? then 2 else 1
  {
    var a := if w.pipes[p].savers > 0 then MarkCrashed(p, true)
             else if w.pipes[p].phase.Started? then MarkRunning(p, true)
             else if w.pipes[p].phase.Opened? then Register(p) else SpawnSaver(p);
    run := [];
    if !WriteBy(a, p) {
      ConsistentStep(w, a);
      run := SilenceBroken(Apply(w, a), p);
    }
    Prepend(w, a, run);
    run := [a] + run;
  }

  /** And only then: if some pipeline of the session is not silent, a run overwrites the status. */
  lemma FinishedForeverExactly(w: World, id: Id)
    requires Consistent(w) && id in w.status && w.status[id] == Finished
    ensures AllSilent(w, id) <==> forall run :: Legal(w, run) ==>
        id in After(w, run).status && After(w, run).status[id] == Finished
  {
    if AllSilent(w, id) {
      forall run | Legal(w, run) ensures id in After(w, run).status && After(w, run).status[id] == Finished {
        FinishedForever(w, id, run);
      }
    } else {
      var p :| 0 <= p < |w.pipes| && w.pipes[p].session == id && !Silent(w, p);
      var run := SilenceBroken(w, p);
      assert After(w, run).status[id] != Finished;
    }
  }

  lemma {:induction false} Append(w: World, run: seq<Action>, a: Action)
    requires Legal(w, run) && Enabled(After(w, run), a)
    ensures Legal(w, run + [a]) && After(w, run + [a]) == Apply(After(w, run), a)
    decreases |run|
  {
    if run == [] {
      assert run + [a] == [a] && [a][1..] == [];
    } else {
      assert (run + [a])[1..] == run[1..] + [a];
      Append(Apply(w, run[0]), run[1..], a);
    }
  }

  /** Extends a run by one action. */
  lemma Do(init: World, run: seq<Action>, w: World, a: Action) returns (run': seq<Action>, w': World)
    requires Legal(init, run) && w == After(init, run) && Enabled(w, a)
    ensures run' == run + [a] && Legal(init, run') && w' == After(init, run') && w' == Apply(w, a)
  {
    Append(init, run, a);
    run', w' := run + [a], Apply(w, a);
  }

  const FRESH: Pipeline := Pipeline(0, false, Opened, 0, 0)

  /** The first start of a daemon, up to the point where its session exists. */
  lemma OpensFirst(init: World, before: seq<Action>, v: World) returns (run: seq<Action>, w: World)
    requires Legal(init, before) && v == After(init, before)
    requires !v.daemonDone && v.pipes == [] && v.iface == map[] && v.status == map[] && v.inserting == multiset{}
    ensures before <= run && Legal(init, run) && w == After(init, run)
    ensures w == v.(pipes := [FRESH], iface := map[0 := "eth0"], status := map[0 := Starting], inserting := w.inserting)
  {
    run, w := Do(init, before, v, StartLook("eth0"));
    run, w := Do(init, run, w, StartInsert("eth0", 0));
  }

  /** The rest of the start, if nobody interferes. */
  lemma RunsUp(init: World, before: seq<Action>, v: World) returns (run: seq<Action>, w: World)
    requires Legal(init, before) && v == After(init, before)
    requires !v.daemonDone && v.pipes == [FRESH] && 0 in v.status
    ensures before <= run && Legal(init, run) && w == After(init, run)
    ensures w == v.(pipes := [Pipeline(0, false, Returned, 1, 0)], registry := v.registry[0 := 0], status :=
        v.status[0 := Running])
  {
    run, w := Do(init, before, v, Register(0));
    run, w := Do(init, run, w, SpawnSaver(0));
    run, w := Do(init, run, w, Spawned(0));
    run, w := Do(init, run, w, MarkRunning(0, true));
  }

  /** The session reads so after the run. */
  predicate Reads(init: World, run: seq<Action>, id: Id, status: Status) {
    Legal(init, run) && id in After(init, run).status && After(init, run).status[id] == status
  }

  /** From the start of the daemon: a stop that comes before the pipeline is registered writes "finished", and the
      session ends up running. */
  lemma StoppedYetRunning(parse: string -> Option<Id>, name: Id -> string)
      returns (stopped: seq<Action>, run: seq<Action>)
    requires Named(parse, name)
    ensures stopped <= run && Reads(Init(parse, name), stopped, 0, Finished)
        && Reads(Init(parse, name), run, 0, Running)
  {
    var init, w := Init(parse, name), Init(parse, name);
    stopped, w := OpensFirst(init, [], init);
    stopped, w := Do(init, stopped, w, StopLock(name(0)));
    stopped, w := Do(init, stopped, w, StopWrite(0, true));
    run, w := RunsUp(init, stopped, w);
  }

  /** So does a stop under another spelling of the id: it writes "finished" and cancels nothing, and the session can
      still crash. */
  lemma AliasStopMissesPipeline(parse: string -> Option<Id>, name: Id -> string, alias: string)
    returns (stopped: seq<Action>, run: seq<Action>)
    requires Named(parse, name) && parse(alias) == Some(0) && alias != name(0)
    ensures stopped <= run && Reads(Init(parse, name), stopped, 0, Finished)
        && Reads(Init(parse, name), run, 0, Crashed)
    ensures StopLock(alias) in stopped && var w := After(Init(parse, name), stopped); |w.pipes| == 1 && !Dead(w, 0)
  {
    var init, w := Init(parse, name), Init(parse, name);
    stopped, w := OpensFirst(init, [], init);
    stopped, w := RunsUp(init, stopped, w);
    stopped, w := MissedStop(init, stopped, w, alias, 0);
    run, w := Do(init, stopped, w, MarkCrashed(0, true));
  }

  /** A stop under a text that is not the session's name. */
  lemma MissedStop(init: World, before: seq<Action>, v: World, alias: string, id: Id)
      returns (run: seq<Action>, w: World)
    requires Legal(init, before) && v == After(init, before) && !v.daemonDone && id in v.status
    requires v.parse(alias) == Some(id) && alias != v.name(id)
    ensures run == before + [StopLock(alias)] + [StopWrite(id, true)] && Legal(init, run) && w == After(init, run)
    ensures w == v.(status := v.status[id := Finished])
  {
    run, w := Do(init, before, v, StopLock(alias));
    assert w == v.(stops := v.stops + multiset{id});
    run, w := Do(init, run, w, StopWrite(id, true));
    assert w.stops == v.stops;
  }

  // ---- Shutdown ---------------------------------------------------------------------------------

  /** The sessions a shutdown has still to stop. */
  function Left(w: World, q: nat): set<Id>
    requires q < |w.shutdowns|
  {
    if w.shutdowns[q].Over? then {} else w.shutdowns[q].left
  }

  predicate WritingNow(w: World, q: nat, id: Id)
    requires q < |w.shutdowns|
  {
    w.shutdowns[q].Writing? && w.shutdowns[q].id == id
  }

  /** While shutdown q runs, the session with pipeline p is still to be stopped, and registered, or p is silent; and
      once its stop has been completed it is finished. */
  predicate OnItsWay(w: World, q: nat, id: Id, p: nat) {
    && q < |w.shutdowns| && p < |w.pipes| && w.pipes[p].session == id && id in w.status
    && (forall r :: 0 <= r < |w.pipes| && w.pipes[r].session == id && r != p ==> Silent(w, r))
    && (w.daemonDone ==> w.shutdowns[q].Over?)
    && (Silent(w, p) || (id in Left(w, q) && id in w.registry && w.registry[id] == p))
    && (id in Left(w, q) || WritingNow(w, q, id) || w.status[id] == Finished)
  }

  /** The step does not take the session over or register another pipeline for it, another shutdown does not cancel the
      daemon, and the status writes of this one succeed. */
  predicate Undisturbing(w: World, a: Action, q: nat, id: Id, p: nat)
    requires Enabled(w, a)
  {
    match a
    case StartReused(_, k) => k != id
    case Register(r) => r == p || w.pipes[r].session != id
    case ShutWrite(s, ok) => s == q ==> ok
    case ShutCancel(s) => s == q
    case _ => true
  }

  predicate RunsUndisturbed(w: World, run: seq<Action>, q: nat, id: Id, p: nat)
    requires Legal(w, run)
    decreases |run|
  {
    run == [] || (Undisturbing(w, run[0], q, id, p) && RunsUndisturbed(Apply(w, run[0]), run[1..], q, id, p))
  }

  lemma OthersStaySilent(w: World, a: Action, q: nat, id: Id, p: nat)
    requires Consistent(w) && OnItsWay(w, q, id, p) && Enabled(w, a) && Undisturbing(w, a, q, id, p)
    ensures forall r :: 0 <= r < |Apply(w, a).pipes| && Apply(w, a).pipes[r].session == id && r != p ==>
        Silent(Apply(w, a), r)
    ensures p < |Apply(w, a).pipes| && Apply(w, a).pipes[p].session == id
  {
    var t := Apply(w, a);
    forall r | 0 <= r < |t.pipes| && t.pipes[r].session == id && r != p ensures Silent(t, r) {
      if r < |w.pipes| {
        PipeStep(w, a, r);
        SilentStaysSilent(w, a, r);
      } else {
        NewPipe(w, a, r);
      }
    }
    PipeStep(w, a, p);
  }

  /** A step of shutdown q. */
  predicate StepOf(a: Action, q: nat) { (a.ShutLock? || a.ShutWrite? || a.ShutCancel?) && a.q == q }

  lemma OtherStepsKeepShutdown(w: World, a: Action, q: nat)
    requires Enabled(w, a) && q < |w.shutdowns| && !StepOf(a, q)
    ensures q < |Apply(w, a).shutdowns| && Apply(w, a).shutdowns[q] == w.shutdowns[q]
    ensures !a.ShutCancel? ==> Apply(w, a).daemonDone == w.daemonDone
  {
  }

  lemma RegistryKept(w: World, a: Action, id: Id)
    requires Consistent(w) && Enabled(w, a) && id in w.registry && !(a.Register? && w.pipes[a.p].session == id)
    requires !(a.StopLock? && a.text == w.name(id)) && !(a.ShutLock? && a.id == id)
    ensures id in Apply(w, a).registry && Apply(w, a).registry[id] == w.registry[id]
  {
  }

  lemma LeftKept(w: World, a: Action, q: nat, id: Id)
    requires Enabled(w, a) && q < |w.shutdowns| && id in Left(w, q) && a != ShutLock(q, id)
    ensures q < |Apply(w, a).shutdowns| && id in Left(Apply(w, a), q)
  {
    if !StepOf(a, q) { OtherStepsKeepShutdown(w, a, q); }
  }

  /** The critical section of the stop makes the pipeline silent, and no other step takes it off the list. */
  lemma LeftStep(w: World, a: Action, q: nat, id: Id, p: nat)
    requires Consistent(w) && OnItsWay(w, q, id, p) && Enabled(w, a) && Undisturbing(w, a, q, id, p)
    ensures p < |Apply(w, a).pipes| && q < |Apply(w, a).shutdowns|
    ensures var t := Apply(w, a); Silent(t, p) || (id in Left(t, q) && id in t.registry && t.registry[id] == p)
  {
    DoneOnlyWhenOver(w, a, q, id, p);
    PipeStep(w, a, p);
    if Silent(w, p) {
      SilentStaysSilent(w, a, p);
    } else if (a.StopLock? && a.text == w.name(id)) || (a.ShutLock? && a.id == id) {
      StopSilences(w, a, id, p);
    } else {
      LeftKept(w, a, q, id);
      if a.Register? && a.p == p {
        assert Apply(w, a).registry[id] == p;
      } else {
        RegistryKept(w, a, id);
      }
    }
  }

  lemma StopSilences(w: World, a: Action, id: Id, p: nat)
    requires Consistent(w) && Enabled(w, a) && id in w.registry && w.registry[id] == p
    requires (a.StopLock? && a.text == w.name(id)) || (a.ShutLock? && a.id == id)
    ensures p < |Apply(w, a).pipes| && Apply(w, a).pipes[p].cancelled
  {
  }

  lemma DoneOnlyWhenOver(w: World, a: Action, q: nat, id: Id, p: nat)
    requires OnItsWay(w, q, id, p) && Enabled(w, a) && Undisturbing(w, a, q, id, p)
    ensures q < |Apply(w, a).shutdowns| && (Apply(w, a).daemonDone ==> Apply(w, a).shutdowns[q].Over?)
  {
    if !StepOf(a, q) { OtherStepsKeepShutdown(w, a, q); }
  }

  lemma FinishedReached(w: World, a: Action, q: nat, id: Id, p: nat)
    requires Consistent(w) && OnItsWay(w, q, id, p) && Enabled(w, a) && Undisturbing(w, a, q, id, p)
    ensures var t := Apply(w, a);
      && q < |t.shutdowns| && id in t.status && (id in Left(t, q) || WritingNow(t, q, id) || t.status[id] == Finished)
  {
    if id !in Left(w, q) && !WritingNow(w, q, id) {
      FinishedKept(w, id, a);
    }
    StatusChange(w, a, id);
    if !StepOf(a, q) { OtherStepsKeepShutdown(w, a, q); }
  }

  lemma {:induction false} OnItsWayAlong(w: World, run: seq<Action>, q: nat, id: Id, p: nat)
    requires Consistent(w) && OnItsWay(w, q, id, p) && Legal(w, run) && RunsUndisturbed(w, run, q, id, p)
    ensures OnItsWay(After(w, run), q, id, p)
    decreases |run|
  {
    if run == [] {
    } else {
      ConsistentStep(w, run[0]);
      OthersStaySilent(w, run[0], q, id, p);
      LeftStep(w, run[0], q, id, p);
      DoneOnlyWhenOver(w, run[0], q, id, p);
      FinishedReached(w, run[0], q, id, p);
      OnItsWayAlong(Apply(w, run[0]), run[1..], q, id, p);
    }
  }

  /** Which sessions a shutdown finishes: a session that is registered when StopAll takes its list, and whose other
      pipelines are silent, reads finished when the shutdown is over, with every pipeline of the session silent,
      provided that nothing disturbs it; so by FinishedForever it stays finished. */
  lemma ShutdownFinishes(w: World, run: seq<Action>, id: Id)
    requires Consistent(w) && !w.daemonDone && id in w.registry
    requires forall r :: 0 <= r < |w.pipes| && w.pipes[r].session == id && r != w.registry[id] ==> Silent(w, r)
    requires Legal(Apply(w, ShutBegin), run)
        && RunsUndisturbed(Apply(w, ShutBegin), run, |w.shutdowns|, id, w.registry[id])
    requires |w.shutdowns| < |After(Apply(w, ShutBegin), run).shutdowns|
        && After(Apply(w, ShutBegin), run).shutdowns[|w.shutdowns|].Over?
    ensures var t := After(Apply(w, ShutBegin), run); id in t.status && t.status[id] == Finished && AllSilent(t, id)
  {
    ConsistentStep(w, ShutBegin);
    OnItsWayAlong(Apply(w, ShutBegin), run, |w.shutdowns|, id, w.registry[id]);
  }

  /** Once the daemon's context is cancelled, no new pipeline can start and the status table never changes again. */
  lemma {:induction false} FrozenByShutdown(w: World, run: seq<Action>)
    requires w.daemonDone && Legal(w, run)
    ensures var t := After(w, run); t.daemonDone && |t.pipes| == |w.pipes| && t.status == w.status
    decreases |run|
  {
    if run == [] {
    } else {
      FrozenByShutdown(Apply(w, run[0]), run[1..]);
    }
  }

  /** When a shutdown is over every pipeline is dead, also those registered after it took its list, and the statuses
      are for good those at the moment it cancelled the daemon's context. */
  lemma {:induction false} ShutdownCancelsAll(w: World, run: seq<Action>, k: nat)
    requires Consistent(w) && Legal(w, run) && k < |run| && run[k].ShutCancel?
    ensures forall p :: 0 <= p < |After(w, run).pipes| ==> Dead(After(w, run), p)
    ensures Legal(w, run[..k]) && After(w, run).status == After(w, run[..k]).status
    decreases |run|
  {
    if k == 0 {
      assert run[..0] == [];
      FrozenByShutdown(Apply(w, run[0]), run[1..]);
    } else {
      ConsistentStep(w, run[0]);
      ShutdownCancelsAll(Apply(w, run[0]), run[1..], k - 1);
      Shift(w, run, k);
    }
  }

  /** A shutdown that is over has been through its list: each session on it has had its stop. */
  lemma {:induction false} ShutdownStopsItsList(w: World, run: seq<Action>, q: nat, id: Id)
    requires Legal(w, run) && q < |w.shutdowns| && id in Left(w, q)
    requires q < |After(w, run).shutdowns| && After(w, run).shutdowns[q].Over?
    ensures exists j :: 0 <= j < |run| && run[j] == ShutLock(q, id)
    decreases |run|
  {
    if run[0] == ShutLock(q, id) {
      assert run[0] == ShutLock(q, id);
    } else {
      LeftKept(w, run[0], q, id);
      ShutdownStopsItsList(Apply(w, run[0]), run[1..], q, id);
      var j :| 0 <= j < |run| - 1 && run[1..][j] == ShutLock(q, id);
      assert run[j + 1] == ShutLock(q, id);
    }
  }

  // ---- And which it does not --------------------------------------------------------------------

  /** The session is not finished, and no stop or shutdown is on its way to finish it. */
  predicate NotFinishing(w: World, id: Id) {
    && (id in w.status ==> w.status[id] != Finished)
    && id !in w.stops
    && forall q :: 0 <= q < |w.shutdowns| ==> id !in Left(w, q) && !WritingNow(w, q, id)
  }

  /** No stop of the session begins, and no shutdown that finds it registered. */
  predicate Sparing(w: World, a: Action, id: Id) {
    !(a.StopLock? && w.parse(a.text) == Some(id)) && !(a.ShutBegin? && id in w.registry)
  }

  predicate RunSparing(w: World, run: seq<Action>, id: Id)
    requires Legal(w, run)
    decreases |run|
  {
    run == [] || (Sparing(w, run[0], id) && RunSparing(Apply(w, run[0]), run[1..], id))
  }

  lemma SparedStatus(w: World, a: Action, id: Id)
    requires NotFinishing(w, id) && Enabled(w, a) && Sparing(w, a, id)
    ensures var t := Apply(w, a); (id in t.status ==> t.status[id] != Finished) && id !in t.stops
  {
    if id in w.status { StatusFinished(w, a, id); }
    if a.StopLock? { LookedKeeps(w, a.text, id); }
  }

  lemma LookedKeeps(w: World, text: string, id: Id)
    ensures Looked(w, text, id).stops == w.stops && Looked(w, text, id).status == w.status
        && Looked(w, text, id).inserting == w.inserting
  {
  }

  lemma OtherStopWrites(w: World, a: Action, id: Id)
    requires NotFinishing(w, id) && Enabled(w, a) && id in w.status && (a.StopWrite? || a.ShutWrite?)
    ensures id in Apply(w, a).status && Apply(w, a).status[id] == w.status[id]
  {
    if a.ShutWrite? { assert !WritingNow(w, a.q, id); }
  }

  lemma PipelineWrites(w: World, a: Action, id: Id)
    requires Enabled(w, a) && id in w.status && Writes(a) && !a.StopWrite? && !a.ShutWrite?
    ensures id in Apply(w, a).status && (Apply(w, a).status[id] == w.status[id] || Apply(w, a).status[id] != Finished)
  {
  }

  /** Only a write of a stop of the session makes it finished. */
  lemma StatusFinished(w: World, a: Action, id: Id)
    requires NotFinishing(w, id) && Enabled(w, a) && id in w.status
    ensures id in Apply(w, a).status && Apply(w, a).status[id] != Finished
  {
    if a.StopWrite? || a.ShutWrite? {
      OtherStopWrites(w, a, id);
    } else if Writes(a) {
      PipelineWrites(w, a, id);
    } else {
      NoWrite(w, a);
    }
  }

  lemma SparedShutdowns(w: World, a: Action, id: Id, q: nat)
    requires NotFinishing(w, id) && Enabled(w, a) && Sparing(w, a, id) && q < |Apply(w, a).shutdowns|
    ensures id !in Left(Apply(w, a), q) && !WritingNow(Apply(w, a), q, id)
  {
    if q < |w.shutdowns| {
      assert id !in Left(w, q) && !WritingNow(w, q, id);
      if !StepOf(a, q) { OtherStepsKeepShutdown(w, a, q); }
    }
  }

  lemma SparedStep(w: World, a: Action, id: Id)
    requires NotFinishing(w, id) && Enabled(w, a) && Sparing(w, a, id)
    ensures NotFinishing(Apply(w, a), id)
  {
    var t := Apply(w, a);
    SparedStatus(w, a, id);
    forall q | 0 <= q < |t.shutdowns| ensures id !in Left(t, q) && !WritingNow(t, q, id) {
      SparedShutdowns(w, a, id, q);
    }
  }

  lemma {:induction false} SparedAlong(w: World, run: seq<Action>, id: Id)
    requires NotFinishing(w, id) && Legal(w, run) && RunSparing(w, run, id)
    ensures NotFinishing(After(w, run), id)
    decreases |run|
  {
    if run == [] {
    } else {
      SparedStep(w, run[0], id);
      SparedAlong(Apply(w, run[0]), run[1..], id);
    }
  }

  /** Exactly which sessions a shutdown finishes. Take a session that nobody is finishing when the shutdown takes its
      list. If it was registered, let its other pipelines be silent and the run not disturb it; if it was not, let no
      other stop or shutdown take it up. Then it reads finished when the shutdown is over if and only if it was
      registered when the list was taken. */
  lemma ShutdownFinishesExactly(w: World, run: seq<Action>, id: Id)
    requires Consistent(w) && !w.daemonDone && NotFinishing(w, id) && Legal(Apply(w, ShutBegin), run)
    requires id in w.registry ==>
      && (forall r :: 0 <= r < |w.pipes| && w.pipes[r].session == id && r != w.registry[id] ==> Silent(w, r))
      && RunsUndisturbed(Apply(w, ShutBegin), run, |w.shutdowns|, id, w.registry[id])
    requires id !in w.registry ==> RunSparing(Apply(w, ShutBegin), run, id)
    requires var t := After(Apply(w, ShutBegin), run); |w.shutdowns| < |t.shutdowns| && t.shutdowns[|w.shutdowns|].Over?
    ensures var t := After(Apply(w, ShutBegin), run); (id in t.status && t.status[id] == Finished) <==> id in w.registry
  {
    if id in w.registry {
      ShutdownFinishes(w, run, id);
    } else {
      var v := Apply(w, ShutBegin);
      forall q | 0 <= q < |v.shutdowns| ensures id !in Left(v, q) && !WritingNow(v, q, id) {
        if q < |w.shutdowns| { assert v.shutdowns[q] == w.shutdowns[q] && id !in Left(w, q) && !WritingNow(w, q, id); }
      }
      SparedAlong(v, run, id);
    }
  }

  /** From the start of the daemon: a pipeline started after a shutdown took its list is dead when the shutdown is
      over, yet its session reads starting or running, as it did at the cancellation, and by ShutdownCancelsAll
      always will. */
  lemma LateStartNeverFinished(parse: string -> Option<Id>, name: Id -> string)
      returns (early: seq<Action>, late: seq<Action>)
    requires Named(parse, name)
    ensures Reads(Init(parse, name), early, 0, Starting) && Reads(Init(parse, name), late, 0, Running)
    ensures After(Init(parse, name), early).shutdowns == After(Init(parse, name), late).shutdowns == [Over]
    ensures var t := After(Init(parse, name), late); |t.pipes| == 1 && Dead(t, 0) && !t.pipes[0].cancelled
  {
    var init, v, w := Init(parse, name), Init(parse, name), Init(parse, name);
    early, w := Do(init, [], w, ShutBegin);
    early, w := OpensFirst(init, early, w);
    late, v := RunsUp(init, early, w);
    early, w := Do(init, early, w, ShutCancel(0));
    late, v := Do(init, late, v, ShutCancel(0));
  }

  // ---- What runs can be stopped -----------------------------------------------------------------

  /** How many savers the run spawns for pipeline p. */
  function Spawns(run: seq<Action>, p: nat): nat {
    if run == [] then 0 else (if run[0] == SpawnSaver(p) then 1 else 0) + Spawns(run[1..], p)
  }

  function Savers(w: World, p: nat): nat
    requires p < |w.pipes|
  {
    w.pipes[p].savers + w.pipes[p].aborting
  }

  lemma SaversStep(w: World, a: Action, p: nat)
    requires Enabled(w, a) && p < |w.pipes|
    ensures p < |Apply(w, a).pipes|
    ensures !Dead(Apply(w, a), p) ==>
      !Dead(w, p) && Savers(Apply(w, a), p) == Savers(w, p) + if a == SpawnSaver(p) then 1 else 0
  {
    PipeStep(w, a, p);
    if a.StopLock? && w.parse(a.text).Some? { LockedKeepsSavers(w, w.parse(a.text).value, p); }
    if a.ShutLock? { LockedKeepsSavers(w, a.id, p); }
  }

  lemma LockedKeepsSavers(w: World, id: Id, p: nat)
    requires p < |w.pipes|
    ensures p < |Locked(w, id).pipes| && Savers(Locked(w, id), p) == Savers(w, p)
  {
  }

  /** As long as a pipeline is alive none of its savers leaves, except one that marks the session crashed and is about
      to cancel the pipeline. */
  lemma {:induction false} SaversStay(w: World, run: seq<Action>, p: nat)
    requires p < |w.pipes| && Legal(w, run)
    ensures p < |After(w, run).pipes|
    ensures !Dead(After(w, run), p) ==> !Dead(w, p) && Savers(After(w, run), p) == Savers(w, p) + Spawns(run, p)
    decreases |run|
  {
    if run == [] {
    } else {
      SaversStep(w, run[0], p);
      SaversStay(Apply(w, run[0]), run[1..], p);
    }
  }

  /** Pipeline p is the only one of its session. */
  predicate Sole(w: World, p: nat)
    requires p < |w.pipes|
  {
    forall r :: 0 <= r < |w.pipes| && w.pipes[r].session == w.pipes[p].session ==> r == p
  }

  /** Once past its registration it is found under its session, unless it is cancelled. */
  predicate Findable(w: World, p: nat) {
    p < |w.pipes| && Sole(w, p) && !w.pipes[p].phase.Opened? && !w.pipes[p].cancelled ==>
      w.pipes[p].session in w.registry && w.registry[w.pipes[p].session] == p
  }

  lemma StaysOpened(w: World, a: Action, p: nat)
    requires Enabled(w, a) && p < |w.pipes| && w.pipes[p].phase.Opened? && a != Register(p)
    ensures p < |Apply(w, a).pipes| && Apply(w, a).pipes[p].phase.Opened?
  {
    PipeStep(w, a, p);
    if a.StopLock? && w.parse(a.text).Some? { LockedKeepsPhase(w, w.parse(a.text).value, p); }
    if a.ShutLock? { LockedKeepsPhase(w, a.id, p); }
  }

  lemma LockedKeepsPhase(w: World, id: Id, p: nat)
    requires p < |w.pipes|
    ensures p < |Locked(w, id).pipes| && Locked(w, id).pipes[p].phase == w.pipes[p].phase
  {
  }

  lemma StartsOpened(w: World, a: Action, p: nat)
    requires Enabled(w, a) && |w.pipes| <= p < |Apply(w, a).pipes|
    ensures Apply(w, a).pipes[p].phase.Opened?
  {
    NewPipe(w, a, p);
  }

  lemma SoleBefore(w: World, a: Action, p: nat)
    requires Enabled(w, a) && p < |w.pipes| && p < |Apply(w, a).pipes| && Sole(Apply(w, a), p)
    ensures Sole(w, p)
  {
    forall r | 0 <= r < |w.pipes| ensures r < |Apply(w, a).pipes| && Onward(w.pipes[r], Apply(w, a).pipes[r]) {
      PipeStep(w, a, r);
    }
  }

  lemma FindableStep(w: World, a: Action, p: nat)
    requires Consistent(w) && Enabled(w, a) && Findable(w, p)
    ensures Findable(Apply(w, a), p)
  {
    var t := Apply(w, a);
    if p < |w.pipes| {
      PipeStep(w, a, p);
      var id := w.pipes[p].session;
      if Sole(t, p) && !t.pipes[p].phase.Opened? && !t.pipes[p].cancelled && a != Register(p) {
        SoleBefore(w, a, p);
        if w.pipes[p].phase.Opened? { StaysOpened(w, a, p); }
        if (a.StopLock? && a.text == w.name(id)) || (a.ShutLock? && a.id == id) { StopSilences(w, a, id, p); }
        RegistryKept(w, a, id);
      }
    } else if p < |t.pipes| {
      StartsOpened(w, a, p);
    }
  }

  lemma {:induction false} FindableAlong(w: World, run: seq<Action>, p: nat)
    requires Consistent(w) && Findable(w, p) && Legal(w, run)
    ensures Findable(After(w, run), p)
    decreases |run|
  {
    if run == [] {
    } else {
      ConsistentStep(w, run[0]);
      FindableStep(w, run[0], p);
      FindableAlong(Apply(w, run[0]), run[1..], p);
    }
  }

  /** In every run from the start of the daemon a stop under the name of a session finds the session's only pipeline
      from its registration on: right after its critical section the pipeline is cancelled. */
  lemma StopFindsPipeline(parse: string -> Option<Id>, name: Id -> string, run: seq<Action>, p: nat)
    requires Named(parse, name) && Legal(Init(parse, name), run)
    requires var w := After(Init(parse, name), run); p < |w.pipes| && Sole(w, p) && !w.pipes[p].phase.Opened?
    ensures var w := After(Init(parse, name), run);
      var t := Apply(w, StopLock(w.name(w.pipes[p].session)));
      p < |t.pipes| && t.pipes[p].cancelled
  {
    var w := After(Init(parse, name), run);
    InitConsistent(parse, name);
    ConsistentAlong(Init(parse, name), run);
    FindableAlong(Init(parse, name), run, p);
    var stop := StopLock(w.name(w.pipes[p].session));
    PipeStep(w, stop, p);
    if !w.pipes[p].cancelled { StopSilences(w, stop, w.pipes[p].session, p); }
  }

  /** A pipeline about to be marked running has a saver, or is dead. */
  predicate Manned(w: World, p: nat) {
    p < |w.pipes| && w.pipes[p].phase.Started? ==> Dead(w, p) || Savers(w, p) > 0
  }

  lemma MannedStep(w: World, a: Action, p: nat)
    requires Enabled(w, a) && Manned(w, p)
    ensures Manned(Apply(w, a), p)
  {
    if p < |w.pipes| {
      SaversStep(w, a, p);
      if !w.pipes[p].phase.Started? && a != Spawned(p) { StaysUnstarted(w, a, p); }
    } else if p < |Apply(w, a).pipes| {
      StartsOpened(w, a, p);
    }
  }

  lemma StaysUnstarted(w: World, a: Action, p: nat)
    requires Enabled(w, a) && p < |w.pipes| && !w.pipes[p].phase.Started? && a != Spawned(p)
    ensures p < |Apply(w, a).pipes| && !Apply(w, a).pipes[p].phase.Started?
  {
    PipeStep(w, a, p);
    if a.StopLock? && w.parse(a.text).Some? { LockedKeepsPhase(w, w.parse(a.text).value, p); }
    if a.ShutLock? { LockedKeepsPhase(w, a.id, p); }
  }

  /** No session of a live pipeline is marked running before one of its savers runs. */
  lemma {:induction false} RunningIsManned(w: World, run: seq<Action>, p: nat)
    requires Manned(w, p) && Legal(w, run)
    ensures Manned(After(w, run), p)
    decreases |run|
  {
    if run == [] {
    } else {
      MannedStep(w, run[0], p);
      RunningIsManned(Apply(w, run[0]), run[1..], p);
    }
  }

  // ---- Which session a start gets ---------------------------------------------------------------

  /** A start takes over crashed sessions of its own interface and no others, and makes all of them read starting; it
      goes on to insert a session exactly if there is none. */
  lemma StartsOnOwnInterface(w: World, iface: string, id: Id)
    requires Consistent(w)
    ensures Enabled(w, StartReused(iface, id)) <==>
      !w.daemonDone && id in w.status && w.iface[id] == iface && w.status[id] == Crashed
    ensures Enabled(w, StartLook(iface)) <==>
      !w.daemonDone && forall k :: k in w.status && w.iface[k] == iface ==> w.status[k] != Crashed
    ensures Enabled(w, StartReused(iface, id)) ==>
      var t := Apply(w, StartReused(iface, id));
      && t.pipes == w.pipes + [Pipeline(id, false, Opened, 0, 0)] && t.iface == w.iface
      && t.status.Keys == w.status.Keys
      && forall k :: k in w.status ==>
        t.status[k] == if w.iface[k] == iface && w.status[k] == Crashed then Starting else w.status[k]
  {
    forall k | k in w.status && w.iface[k] == iface && w.status[k] == Crashed ensures k in Reusable(w, iface) { }
    if Reusable(w, iface) != {} {
      var k :| k in Reusable(w, iface);
      assert k in w.status && w.iface[k] == iface && w.status[k] == Crashed;
    }
  }

  /** How many starts on the interface found no session to take over, and how many inserted one. */
  function Looks(run: seq<Action>, iface: string): nat {
    if run == [] then 0 else (if run[0] == StartLook(iface) then 1 else 0) + Looks(run[1..], iface)
  }

  function Inserts(run: seq<Action>, iface: string): nat {
    if run == [] then 0
    else (if run[0].StartInsert? && run[0].iface == iface then 1 else 0) + Inserts(run[1..], iface)
  }

  lemma InsertingStep(w: World, a: Action, iface: string)
    requires Enabled(w, a)
    ensures Apply(w, a).inserting[iface] + (if a.StartInsert? && a.iface == iface then 1 else 0)
      == w.inserting[iface] + (if a == StartLook(iface) then 1 else 0)
  {
    if a.StopLock? && w.parse(a.text).Some? {
      LookedKeeps(w, a.text, w.parse(a.text).value);
    } else if a.ShutLock? {
      assert Locked(w, a.id).inserting == w.inserting;
    }
  }

  /** Along every run each session that is inserted for an interface answers a start that found none to take over. */
  lemma {:induction false} InsertsFollowLooks(w: World, run: seq<Action>, iface: string)
    requires Legal(w, run)
    ensures Inserts(run, iface) + After(w, run).inserting[iface] == Looks(run, iface) + w.inserting[iface]
    decreases |run|
  {
    if run == [] {
    } else {
      InsertingStep(w, run[0], iface);
      InsertsFollowLooks(Apply(w, run[0]), run[1..], iface);
    }
  }

  /** No step of the run takes over a session of the interface. */
  predicate NoneTakenOver(run: seq<Action>, iface: string) {
    forall i :: 0 <= i < |run| ==> !(run[i].StartReused? && run[i].iface == iface)
  }

  predicate CrashedOn(w: World, id: Id, iface: string) {
    id in w.status && w.status[id] == Crashed && id in w.iface && w.iface[id] == iface && AllSilent(w, id)
  }

  lemma CrashedStep(w: World, id: Id, iface: string, a: Action)
    requires Consistent(w) && CrashedOn(w, id, iface) && NotFinishing(w, id)
    requires Enabled(w, a) && Sparing(w, a, id) && !(a.StartReused? && a.iface == iface)
    ensures CrashedOn(Apply(w, a), id, iface)
  {
    var t := Apply(w, a);
    StatusChange(w, a, id);
    SparedStatus(w, a, id);
    InterfaceKept(w, a, id);
    forall p | 0 <= p < |t.pipes| && t.pipes[p].session == id ensures Silent(t, p) {
      if p < |w.pipes| {
        PipeStep(w, a, p);
        SilentStaysSilent(w, a, p);
      } else {
        NewPipe(w, a, p);
      }
    }
  }

  /** A session never moves to another interface. */
  lemma InterfaceKept(w: World, a: Action, id: Id)
    requires Enabled(w, a) && id in w.iface
    ensures id in Apply(w, a).iface && Apply(w, a).iface[id] == w.iface[id]
  {
    if Locks(a) {
      LockKeepsInterfaces(w, a);
    } else if !a.StartInsert? {
      assert Apply(w, a).iface == w.iface;
    }
  }

  lemma LockKeepsInterfaces(w: World, a: Action)
    requires Enabled(w, a) && Locks(a)
    ensures Apply(w, a).iface == w.iface
  {
  }

  /** A crashed session with silent pipelines, which no stop takes up, stays crashed through any run until a start on
      its own interface takes it over; starts on other interfaces do not touch it. */
  lemma {:induction false} CrashedUntilTakenOver(w: World, id: Id, iface: string, run: seq<Action>)
    requires Consistent(w) && CrashedOn(w, id, iface) && NotFinishing(w, id)
    requires Legal(w, run) && RunSparing(w, run, id) && NoneTakenOver(run, iface)
    ensures CrashedOn(After(w, run), id, iface) && NotFinishing(After(w, run), id)
    decreases |run|
  {
    if run == [] {
    } else {
      assert !(run[0].StartReused? && run[0].iface == iface);
      ConsistentStep(w, run[0]);
      CrashedStep(w, id, iface, run[0]);
      SparedStep(w, run[0], id);
      CrashedUntilTakenOver(Apply(w, run[0]), id, iface, run[1..]);
    }
  }

  /** A session of an interface crashes, from the start of the daemon. */
  lemma CrashesFirst(init: World) returns (run: seq<Action>, w: World)
    requires init == Init(init.parse, init.name)
    ensures Legal(init, run) && w == After(init, run) && !w.daemonDone
    ensures w.iface == map[0 := "eth0"] && w.status == map[0 := Crashed]
  {
    run, w := OpensFirst(init, [], init);
    run, w := RunsUp(init, run, w);
    run, w := Do(init, run, w, MarkCrashed(0, true));
  }

  /** A start on an interface without crashed sessions. */
  lemma GetsOwn(init: World, before: seq<Action>, v: World, iface: string, id: Id)
      returns (run: seq<Action>, w: World)
    requires Legal(init, before) && v == After(init, before) && !v.daemonDone && id !in v.status && id !in v.iface
    requires forall k :: k in v.status && k in v.iface && v.iface[k] == iface ==> v.status[k] != Crashed
    ensures run == before + [StartLook(iface)] + [StartInsert(iface, id)] && Legal(init, run) && w == After(init, run)
    ensures !w.daemonDone && w.iface == v.iface[id := iface] && w.status == v.status[id := Starting]
  {
    assert Reusable(v, iface) == {};
    run, w := Do(init, before, v, StartLook(iface));
    run, w := Do(init, run, w, StartInsert(iface, id));
  }

  /** A start on the interface of a crashed session. */
  lemma TakesOver(init: World, before: seq<Action>, v: World, iface: string, id: Id)
      returns (run: seq<Action>, w: World)
    requires Legal(init, before) && v == After(init, before) && !v.daemonDone
    requires id in v.status && id in v.iface && v.iface[id] == iface && v.status[id] == Crashed
    ensures run == before + [StartReused(iface, id)] && Legal(init, run) && w == After(init, run)
    ensures w.iface == v.iface && w.status.Keys == v.status.Keys && w.status[id] == Starting
    ensures forall k :: k in v.status && v.status[k] != Crashed ==> w.status[k] == v.status[k]
  {
    run, w := Do(init, before, v, StartReused(iface, id));
  }

  /** From the start of the daemon: a session crashes on one interface; a start on another leaves it crashed and gets a
      session of its own; the next start on the first interface takes it over. */
  lemma StartElsewhereSparesCrashed(parse: string -> Option<Id>, name: Id -> string)
      returns (elsewhere: seq<Action>, again: seq<Action>)
    ensures Reads(Init(parse, name), elsewhere, 0, Crashed) && Reads(Init(parse, name), elsewhere, 1, Starting)
    ensures After(Init(parse, name), elsewhere).iface == map[0 := "eth0", 1 := "wlan0"]
    ensures again == elsewhere + [StartReused("eth0", 0)]
    ensures Reads(Init(parse, name), again, 0, Starting) && Reads(Init(parse, name), again, 1, Starting)
    ensures After(Init(parse, name), again).iface == map[0 := "eth0", 1 := "wlan0"]
  {
    var init := Init(parse, name);
    var v, w;
    elsewhere, v := CrashesFirst(init);
    elsewhere, w := GetsOwn(init, elsewhere, v, "wlan0", 1);
    again, w := TakesOver(init, elsewhere, w, "eth0", 0);
  }
}
