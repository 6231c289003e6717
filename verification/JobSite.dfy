/**
 The server with its jobs: the registry of running jobs and the job rows beside the pipelines that the
 rows are about. Requests and the steps of all jobs interleave freely.
*/
module JobSite {
  import opened Wrappers
  import opened Pipeline
  import opened PipelineFrames
  import opened PipelineOutcome
  import opened Jobs
  import opened JobServer

  /** How far a job has got: asked for, its row inserted, registered and launched, returned and unregistered. */
  datatype Stage = Asked | RowMade | Underway | Ended

  /** Job j has id ids[j] and reads sources[j]. `parse` is what an id text denotes; `deleting` are the delete requests
      that have left their critical section and are about to delete the row. */
  datatype Site = Site(parse: string -> Option<string>, world: World, ids: seq<string>, sources: seq<string>,
      stages: seq<Stage>,
                       registry: map<string, nat>, rows: map<string, JobRow>, deleting: multiset<string>)

  datatype SiteAction =
    | MakeRow(j: nat)                     // HandleCreateJob inserts the row
    | Enlist(j: nat)                      // registers the job's cancel function and launches the job
    | Step(j: nat, a: Action)             // a step of the job's pipeline
    | Delist(j: nat)                      // Launch has returned; the job is unregistered
    | Cancel(text: string)                // critical section of HandleDeleteJob
    | Drop(text: string, ok: bool)        // its DeleteJob; `ok` if the database call succeeds

  function Begin(parse: string -> Option<string>, configs: seq<Config>, ids: seq<string>, sources: seq<string>,
                 rows: map<string, JobRow>, seen: set<string>): Site
  {
    Site(parse, Start(configs, seen), ids, sources, seq(|ids|, _ => Asked), map[], rows, multiset{})
  }

  /** The jobs to come have distinct ids that denote themselves. */
  predicate Startable(parse: string -> Option<string>, configs: seq<Config>, ids: seq<string>, sources: seq<string>) {
    && |configs| == |ids| == |sources|
    && (forall i, j :: 0 <= i < j < |ids| ==> ids[i] != ids[j])
    && (forall j :: 0 <= j < |ids| ==> parse(ids[j]) == Some(ids[j]))
  }

  /** Every job has an id, a source and a stage, and the registry names jobs. */
  predicate Shaped(s: Site) {
    && WellFormed(s.world)
    && |s.ids| == |s.sources| == |s.stages| == |s.world.jobs|
    && (forall text :: text in s.registry ==> s.registry[text] < |s.ids|)
  }

  /** Ids are distinct and denote themselves; the registry holds jobs under way under their own ids; a job that has not
      been launched has done nothing. */
  predicate Sound(s: Site) {
    && Shaped(s)
    && (forall i, j :: 0 <= i < j < |s.ids| ==> s.ids[i] != s.ids[j])
    && (forall j :: 0 <= j < |s.ids| ==> s.parse(s.ids[j]) == Some(s.ids[j]))
    && (forall text :: text in s.registry ==>
          s.ids[s.registry[text]] == text && s.stages[s.registry[text]].Underway?)
    && (forall j :: 0 <= j < |s.ids| && (s.stages[j].Asked? || s.stages[j].RowMade?) ==>
          !s.world.jobs[j].cancelled && s.world.jobs[j].job == JobRecord([], 0, []))
  }

  predicate CanDo(s: Site, a: SiteAction) {
    Shaped(s) &&
    match a
    case MakeRow(j) => j < |s.ids| && s.stages[j].Asked? && s.world.configs[j].paths != [] && s.ids[j] !in s.rows
    case Enlist(j) => j < |s.ids| && s.stages[j].RowMade?
    case Step(j, p) => j < |s.ids| && (s.stages[j].Underway? || s.stages[j].Ended?) && !p.CancelJob?
        && CanMove(s.world, Move(j, p))
    case Delist(j) => j < |s.ids| && s.stages[j].Underway? && s.world.jobs[j].main.MDone?
    case Cancel(text) => true
    case Drop(text, _) => text in s.deleting
  }

  /** Cancelling a context that is already cancelled does nothing. */
  function CancelIn(w: World, j: nat): World
    requires WellFormed(w) && j < |w.jobs|
  {
    if w.jobs[j].cancelled then w else MoveTo(w, Move(j, CancelJob))
  }

  /** The job row call a step of a pipeline makes. */
  function CallOf(rows: map<string, JobRow>, id: string, a: Action): map<string, JobRow> {
    match a
    case Read(_, ProgressOk) => Progressed(rows, id, 1)
    case Save(_, FailWritten) => Stamped(rows, id, "FAILED", true)
    case Main(CompletedWritten) => Stamped(rows, id, "COMPLETED", true)
    case _ => rows
  }

  function Next(s: Site, a: SiteAction): (t: Site)
    requires CanDo(s, a)
    ensures Shaped(t) && t.ids == s.ids && t.world.configs == s.world.configs
  {
    match a
    case MakeRow(j) =>
      s.(stages := s.stages[j := RowMade], rows := WithJob(s.rows, s.ids[j], s.sources[j], |s.world.configs[j].paths|))
    case Enlist(j) => s.(stages := s.stages[j := Underway], registry := s.registry[s.ids[j] := j])
    case Step(j, p) => s.(world := MoveTo(s.world, Move(j, p)), rows := CallOf(s.rows, s.ids[j], p))
    case Delist(j) => s.(stages := s.stages[j := Ended], registry := s.registry - {s.ids[j]})
    case Cancel(text) =>
      s.(world := if text in s.registry then CancelIn(s.world, s.registry[text]) else s.world,
         registry := s.registry - {text}, deleting := s.deleting + multiset{text})
    case Drop(text, ok) =>
      s.(rows := if ok && s.parse(text).Some? then s.rows - {s.parse(text).value} else s.rows,
         deleting := s.deleting - multiset{text})
  }

  lemma HeardJobs(w: World, m: Move, j: nat)
    requires WellFormed(w) && CanMove(w, m) && j < |w.jobs| && j != m.job
    ensures var t := MoveTo(w, m); t.jobs[j] == w.jobs[j].(seen := t.jobs[j].seen)
  {
  }

  lemma CancelInKeeps(w: World, i: nat, j: nat)
    requires WellFormed(w) && i < |w.jobs| && j < |w.jobs|
    ensures var t := CancelIn(w, i); WellFormed(t) && t.configs == w.configs && |t.jobs| == |w.jobs|
    ensures CancelIn(w, i).jobs[j] == if i == j then w.jobs[j].(cancelled := true) else w.jobs[j]
  {
    if !w.jobs[i].cancelled {
      if i != j { assert w.jobs[j].seen + {} == w.jobs[j].seen; }
    } else if i == j {
      assert w.jobs[j] == w.jobs[j].(cancelled := true);
    }
  }

  lemma SoundStep(s: Site, a: SiteAction)
    requires Sound(s) && CanDo(s, a)
    ensures Sound(Next(s, a))
  {
    var t := Next(s, a);
    if a.Step? {
      forall j | 0 <= j < |t.ids| && (t.stages[j].Asked? || t.stages[j].RowMade?)
        ensures !t.world.jobs[j].cancelled && t.world.jobs[j].job == JobRecord([], 0, [])
      {
        HeardJobs(s.world, Move(a.j, a.a), j);
      }
    } else if a.Cancel? && a.text in s.registry {
      forall j | 0 <= j < |t.ids| && (t.stages[j].Asked? || t.stages[j].RowMade?)
        ensures !t.world.jobs[j].cancelled && t.world.jobs[j].job == JobRecord([], 0, [])
      {
        CancelInKeeps(s.world, s.registry[a.text], j);
      }
    }
  }

  predicate Possible(s: Site, run: seq<SiteAction>)
    decreases |run|
  {
    run == [] || (CanDo(s, run[0]) && Possible(Next(s, run[0]), run[1..]))
  }

  function Outcome(s: Site, run: seq<SiteAction>): (t: Site)
    requires Possible(s, run)
    ensures t.ids == s.ids && t.world.configs == s.world.configs && (Shaped(s) ==> Shaped(t))
    decreases |run|
  {
    if run == [] then s else Outcome(Next(s, run[0]), run[1..])
  }

  lemma {:induction false} SoundAlong(s: Site, run: seq<SiteAction>)
    requires Sound(s) && Possible(s, run)
    ensures Sound(Outcome(s, run))
    decreases |run|
  {
    if run == [] {
    } else {
      SoundStep(s, run[0]);
      SoundAlong(Next(s, run[0]), run[1..]);
    }
  }

  // ---- The pipelines of the site ----------------------------------------------------------------

  /** The moves of the pipelines in a run of the site. */
  function Moves(s: Site, run: seq<SiteAction>): seq<Move>
    requires Possible(s, run)
    decreases |run|
  {
    if run == [] then []
    else
      (match run[0]
       case Step(j, p) => [Move(j, p)]
       case Cancel(text) => if text in s.registry && !s.world.jobs[s.registry[text]].cancelled
           then [Move(s.registry[text], CancelJob)] else []
       case _ => [])
      + Moves(Next(s, run[0]), run[1..])
  }

  lemma MoveFirst(w: World, m: Move, rest: seq<Move>)
    requires WellFormed(w) && CanMove(w, m) && WorldLegal(MoveTo(w, m), rest)
    ensures WorldLegal(w, [m] + rest) && WorldAfter(w, [m] + rest) == WorldAfter(MoveTo(w, m), rest)
  {
    assert ([m] + rest)[1..] == rest;
  }

  /** Requests and launches only choose when pipelines start and are cancelled: a run of the site is a run of its
      concurrent jobs, so what is proved of these holds at the site. */
  lemma {:induction false} SiteRunsItsJobs(s: Site, run: seq<SiteAction>)
    requires Shaped(s) && Possible(s, run)
    ensures WorldLegal(s.world, Moves(s, run)) && Outcome(s, run).world == WorldAfter(s.world, Moves(s, run))
    decreases |run|
  {
    if run == [] {
    } else {
      var t := Next(s, run[0]);
      var rest := Moves(t, run[1..]);
      SiteRunsItsJobs(t, run[1..]);
      match run[0]
      case Step(j, p) => MoveFirst(s.world, Move(j, p), rest);
      case Cancel(text) =>
        if text in s.registry && !s.world.jobs[s.registry[text]].cancelled {
          MoveFirst(s.world, Move(s.registry[text], CancelJob), rest);
        } else {
          assert [] + rest == rest;
        }
      case _ => assert [] + rest == rest;
    }
  }

  // ---- What a delete cancels --------------------------------------------------------------------

  /** The critical section of a delete cancels the job registered under that very text, and leaves every other job
      as it is. */
  lemma DeleteCancelsExactly(s: Site, text: string, j: nat)
    requires Shaped(s) && j < |s.ids|
    ensures var t := Next(s, Cancel(text));
      t.world.jobs[j] == if text in s.registry && s.registry[text] == j then s.world.jobs[j].(cancelled := true)
          else s.world.jobs[j]
  {
    if text in s.registry { CancelInKeeps(s.world, s.registry[text], j); }
  }

  /** Deleting a job under the text it is registered under freezes that job, whatever happens afterwards: its rows,
      source files, progress and status stay as they were, but for the final status write. */
  lemma DeleteFreezes(s: Site, text: string, run: seq<SiteAction>)
    requires Shaped(s) && text in s.registry && Possible(Next(s, Cancel(text)), run)
    ensures var j, t := s.registry[text], Outcome(Next(s, Cancel(text)), run);
      j < |t.world.jobs| && SameEffects(s.world.jobs[j], t.world.jobs[j])
          && OnlyFinalWrite(s.world.jobs[j], t.world.jobs[j])
  {
    var j, v := s.registry[text], Next(s, Cancel(text));
    DeleteCancelsExactly(s, text, j);
    SiteRunsItsJobs(v, run);
    ProjectionIsRun(v.world, Moves(v, run), j);
    FrozenOnceCancelled(v.world.configs[j], v.world.jobs[j], Projection(v.world, Moves(v, run), j));
  }

  predicate Launched(s: Site, j: nat)
    requires j < |s.stages|
  {
    s.stages[j].Underway? || s.stages[j].Ended?
  }

  /** A launched job whose context is live is registered under its id, and a pool that has returned has cancelled it. */
  predicate Findable(s: Site, j: nat)
    requires Shaped(s) && j < |s.ids|
  {
    && (Launched(s, j) && !s.world.jobs[j].cancelled ==> s.ids[j] in s.registry && s.registry[s.ids[j]] == j)
    && (s.world.jobs[j].main.MDone? ==> s.world.jobs[j].cancelled)
  }

  lemma ReturnedIsCancelled(c: Config, t: State, p: Action)
    requires Enabled(c, t, p) && (t.main.MDone? ==> t.cancelled)
    ensures (t.cancelled ==> Apply(c, t, p).cancelled) && (Apply(c, t, p).main.MDone? ==> Apply(c, t, p).cancelled)
  {
    match p
    case Save(w, l) => SaveFrame(c, t, w, l);
    case Read(w, l) => ReadFrame(c, t, w, l);
    case Check(w, l) => CheckFrame(c, t, w, l);
    case Main(l) => MainFrame(c, t, l);
    case _ => OutsideFrame(c, t, p);
  }

  lemma FindableStep(s: Site, a: SiteAction, j: nat)
    requires Sound(s) && CanDo(s, a) && j < |s.ids| && Findable(s, j)
    ensures Findable(Next(s, a), j)
  {
    match a
    case Cancel(text) => DeleteCancelsExactly(s, text, j);
    case Step(i, p) =>
      if i == j {
        ReturnedIsCancelled(s.world.configs[j], s.world.jobs[j], p);
      } else {
        HeardJobs(s.world, Move(i, p), j);
      }
    case Enlist(i) => assert i != j ==> s.ids[i] != s.ids[j];
    case Delist(i) => assert i != j ==> s.ids[i] != s.ids[j];
    case _ =>
  }

  lemma {:induction false} FindableAlong(s: Site, run: seq<SiteAction>, j: nat)
    requires Sound(s) && j < |s.ids| && Findable(s, j) && Possible(s, run)
    ensures Findable(Outcome(s, run), j)
    decreases |run|
  {
    if run == [] {
    } else {
      SoundStep(s, run[0]);
      FindableStep(s, run[0], j);
      FindableAlong(Next(s, run[0]), run[1..], j);
    }
  }

  /** In every run of the site a delete under a job's own id finds the job from its launch on: right after it the job's
      context is cancelled. */
  lemma DeleteFindsJob(parse: string -> Option<string>, configs: seq<Config>, ids: seq<string>, sources: seq<string>,
                       rows: map<string, JobRow>, seen: set<string>, run: seq<SiteAction>, j: nat)
    requires Startable(parse, configs, ids, sources) && j < |ids|
    requires Possible(Begin(parse, configs, ids, sources, rows, seen), run)
    requires Launched(Outcome(Begin(parse, configs, ids, sources, rows, seen), run), j)
    ensures var s := Outcome(Begin(parse, configs, ids, sources, rows, seen), run);
      Next(s, Cancel(ids[j])).world.jobs[j].cancelled
  {
    FindableAlong(Begin(parse, configs, ids, sources, rows, seen), run, j);
    DeleteCancelsExactly(Outcome(Begin(parse, configs, ids, sources, rows, seen), run), ids[j], j);
  }

  /** The ways in which job j's context gets cancelled: a delete under its id while it is registered, a saver's abort,
      and the return of ProcessWithPool. */
  predicate Cancels(s: Site, a: SiteAction, j: nat) {
    match a
    case Cancel(text) => text in s.registry && s.registry[text] == j
    case Step(i, p) => i == j && ((p.Save? && p.v.Abort?) || (p.Main? && p.m.Return?))
    case _ => false
  }

  lemma StepCancels(c: Config, t: State, p: Action)
    requires Enabled(c, t, p) && !p.CancelJob?
    ensures Apply(c, t, p).cancelled <==> t.cancelled || (p.Save? && p.v.Abort?) || (p.Main? && p.m.Return?)
  {
    match p
    case Save(_, _) =>
    case Main(_) =>
    case Check(w, l) => assert CheckerEffect(c, t, t.checkers[w], l).cancelled == t.cancelled;
    case Read(w, l) => assert ReaderEffect(c, t, t.readers[w], l).cancelled == t.cancelled;
    case _ =>
  }

  lemma CancelStep(s: Site, a: SiteAction, j: nat)
    requires CanDo(s, a) && j < |s.ids|
    ensures Next(s, a).world.jobs[j].cancelled <==> s.world.jobs[j].cancelled || Cancels(s, a, j)
  {
    match a
    case Cancel(text) => DeleteCancelsExactly(s, text, j);
    case Step(i, p) =>
      if i == j {
        StepCancels(s.world.configs[j], s.world.jobs[j], p);
      } else {
        HeardJobs(s.world, Move(i, p), j);
      }
    case _ =>
  }

  predicate CancelledIn(s: Site, run: seq<SiteAction>, j: nat)
    requires Possible(s, run)
    decreases |run|
  {
    run != [] && (Cancels(s, run[0], j) || CancelledIn(Next(s, run[0]), run[1..], j))
  }

  /** A job's context is cancelled in a run of the site exactly if one of these happens; so a delete under any other
      text, or before the job is registered, leaves the job alone. */
  lemma {:induction false} CancelledExactly(s: Site, run: seq<SiteAction>, j: nat)
    requires Shaped(s) && Possible(s, run) && j < |s.ids|
    ensures Outcome(s, run).world.jobs[j].cancelled <==> s.world.jobs[j].cancelled || CancelledIn(s, run, j)
    decreases |run|
  {
    if run == [] {
    } else {
      CancelStep(s, run[0], j);
      CancelledExactly(Next(s, run[0]), run[1..], j);
    }
  }
}
