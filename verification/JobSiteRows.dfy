/**
 What the job rows of a server say about its jobs, the server's objects as an implementation of the site, and
 deletes that remove a row but leave its job running.
*/
module JobSiteRows {
  import opened Wrappers
  import opened Capture
  import opened Pipeline
  import opened PipelineControl
  import opened PipelineOutcome
  import opened Jobs
  import opened JobServer
  import opened JobSite

  // ---- Rows mirror runs -------------------------------------------------------------------------

  function StatusText(status: Status): string {
    match status
    case PROCESSING => "PROCESSING"
    case FAILED => "FAILED"
    case COMPLETED => "COMPLETED"
  }

  /** The row that job j's run so far calls for. */
  function RowOf(s: Site, j: nat): JobRow
    requires Shaped(s) && j < |s.ids|
  {
    var job := s.world.jobs[j];
    JobRow(StatusText(Current(job)), job.job.statuses != [], s.sources[j], |s.world.configs[j].paths|,
        job.job.filesRead)
  }

  predicate Mirrored(s: Site)
    requires Shaped(s)
  {
    forall j :: 0 <= j < |s.ids| && !s.stages[j].Asked? && s.ids[j] in s.rows ==> s.rows[s.ids[j]] == RowOf(s, j)
  }

  lemma RecordStep(c: Config, t: State, p: Action)
    requires Enabled(c, t, p)
    ensures var u := Apply(c, t, p);
      && u.job.filesRead == t.job.filesRead + (if p.Read? && p.r.ProgressOk? then 1 else 0)
      && u.job.statuses == t.job.statuses + WrittenBy(p)
  {
    match p
    case Main(l) => MainWrites(c, t, l);
    case Save(w, l) => SaverWrites(c, t, w, l);
    case _ => OthersWriteNothing(c, t, p);
  }

  /** A step's call makes of a row that mirrors the job before the step one that mirrors it afterwards. */
  lemma CallMirrors(c: Config, t: State, p: Action, rows: map<string, JobRow>, id: string, source: string)
    requires Enabled(c, t, p) && id in rows
    requires rows[id] == JobRow(StatusText(Current(t)), t.job.statuses != [], source, |c.paths|, t.job.filesRead)
    ensures id in CallOf(rows, id, p)
    ensures var u := Apply(c, t, p);
      CallOf(rows, id, p)[id]
          == JobRow(StatusText(Current(u)), u.job.statuses != [], source, |c.paths|, u.job.filesRead)
  {
    RecordStep(c, t, p);
  }

  lemma CallTouchesOneRow(rows: map<string, JobRow>, id: string, p: Action, other: string)
    requires other != id
    ensures CallOf(rows, id, p).Keys == rows.Keys && (other in rows ==> CallOf(rows, id, p)[other] == rows[other])
  {
  }

  lemma StepMirrors(s: Site, i: nat, p: Action)
    requires Sound(s) && CanDo(s, Step(i, p)) && Mirrored(s)
    ensures Mirrored(Next(s, Step(i, p)))
  {
    var t := Next(s, Step(i, p));
    forall j | 0 <= j < |t.ids| && !t.stages[j].Asked? && t.ids[j] in t.rows ensures t.rows[t.ids[j]] == RowOf(t, j) {
      if j == i {
        if s.ids[i] in s.rows { CallMirrors(s.world.configs[i], s.world.jobs[i], p, s.rows, s.ids[i], s.sources[i]); }
      } else {
        HeardJobs(s.world, Move(i, p), j);
        CallTouchesOneRow(s.rows, s.ids[i], p, s.ids[j]);
      }
    }
  }

  lemma MakeRowMirrors(s: Site, i: nat)
    requires Sound(s) && CanDo(s, MakeRow(i)) && Mirrored(s)
    ensures Mirrored(Next(s, MakeRow(i)))
  {
    var t := Next(s, MakeRow(i));
    forall j | 0 <= j < |t.ids| && !t.stages[j].Asked? && t.ids[j] in t.rows ensures t.rows[t.ids[j]] == RowOf(t, j) {
      assert j != i ==> t.ids[j] != s.ids[i];
    }
  }

  lemma CancelMirrors(s: Site, text: string)
    requires Sound(s) && Mirrored(s)
    ensures Mirrored(Next(s, Cancel(text)))
  {
    forall j | 0 <= j < |s.ids| ensures RowOf(Next(s, Cancel(text)), j) == RowOf(s, j) {
      DeleteCancelsExactly(s, text, j);
    }
  }

  lemma MirrorStep(s: Site, a: SiteAction)
    requires Sound(s) && CanDo(s, a) && Mirrored(s)
    ensures Mirrored(Next(s, a))
  {
    match a
    case MakeRow(j) => MakeRowMirrors(s, j);
    case Step(j, p) => StepMirrors(s, j, p);
    case Cancel(text) => CancelMirrors(s, text);
    case _ =>
  }

  lemma {:induction false} MirrorAlong(s: Site, run: seq<SiteAction>)
    requires Sound(s) && Mirrored(s) && Possible(s, run)
    ensures Mirrored(Outcome(s, run))
    decreases |run|
  {
    if run == [] {
    } else {
      SoundStep(s, run[0]);
      MirrorStep(s, run[0]);
      MirrorAlong(Next(s, run[0]), run[1..]);
    }
  }

  /** In every run of a site, as long as a job's row exists it shows the job's current status, a completion time iff a
      status has been written, and the number of files the job counted. */
  lemma RowsMirrorRuns(parse: string -> Option<string>, configs: seq<Config>, ids: seq<string>, sources: seq<string>,
                       rows: map<string, JobRow>, seen: set<string>, run: seq<SiteAction>)
    requires Startable(parse, configs, ids, sources) && Possible(Begin(parse, configs, ids, sources, rows, seen), run)
    ensures Mirrored(Outcome(Begin(parse, configs, ids, sources, rows, seen), run))
  {
    MirrorAlong(Begin(parse, configs, ids, sources, rows, seen), run);
  }

  /** The percentage computed from the row is in range, and 100 exactly if all files have been counted. */
  predicate InRange(row: JobRow) {
    && row.filesRead <= row.totalFiles && 0 <= ProgressPct(row.filesRead, row.totalFiles) <= 100
    && (row.totalFiles > 0 ==> (ProgressPct(row.filesRead, row.totalFiles) == 100 <==> row.filesRead == row.totalFiles))
  }

  /** So the response to a request for a job is in range as long as the job's row exists. */
  lemma ResponsesInRange(parse: string -> Option<string>, configs: seq<Config>, ids: seq<string>, sources: seq<string>,
                         rows: map<string, JobRow>, seen: set<string>, run: seq<SiteAction>)
    requires Startable(parse, configs, ids, sources) && Possible(Begin(parse, configs, ids, sources, rows, seen), run)
    ensures var t := Outcome(Begin(parse, configs, ids, sources, rows, seen), run);
      forall j :: 0 <= j < |t.ids| && !t.stages[j].Asked? && t.ids[j] in t.rows ==> InRange(t.rows[t.ids[j]])
  {
    var s := Begin(parse, configs, ids, sources, rows, seen);
    var t := Outcome(s, run);
    RowsMirrorRuns(parse, configs, ids, sources, rows, seen, run);
    SiteRunsItsJobs(s, run);
    forall j | 0 <= j < |t.ids| && !t.stages[j].Asked? && t.ids[j] in t.rows ensures InRange(t.rows[t.ids[j]]) {
      ProjectionIsRun(s.world, Moves(s, run), j);
      JobInRange(configs[j], seen, t.world.jobs[j], Projection(s.world, Moves(s, run), j));
    }
  }

  lemma JobInRange(c: Config, seen: set<string>, s: State, run: seq<Action>)
    requires Legal(c, Init(c, seen), run) && After(c, Init(c, seen), run) == s
    ensures s.job.filesRead <= |c.paths| && 0 <= ProgressPct(s.job.filesRead, |c.paths|) <= 100
    ensures |c.paths| > 0 ==> (ProgressPct(s.job.filesRead, |c.paths|) == 100 <==> s.job.filesRead == |c.paths|)
  {
    ReachableControl(c, seen, s);
    PercentageRange(s.job.filesRead, |c.paths|);
  }

  /** A row that is no job's of the site keeps its contents; only a delete that denotes it removes it. */
  lemma ForeignRowKept(s: Site, a: SiteAction, id: string)
    requires CanDo(s, a) && id in s.rows && id !in s.ids
    ensures if a.Drop? && a.ok && s.parse(a.text) == Some(id) then id !in Next(s, a).rows
            else id in Next(s, a).rows && Next(s, a).rows[id] == s.rows[id]
  {
    if a.Step? { CallTouchesOneRow(s.rows, s.ids[a.j], a.a, id); }
  }

  // ---- The server's objects ---------------------------------------------------------------------

  /** The objects of the server stand for the site: same rows, same registrations, and no registered context is
      cancelled. */
  ghost predicate Represents(server: Server, s: Site)
    reads server, server.table, server.jobs.Values
  {
    && server.Valid() && server.table.rows == s.rows && server.jobs.Keys == s.registry.Keys
    && forall text :: text in server.jobs ==> !server.jobs[text].cancelled
  }

  /** HandleDeleteJob carries out the two steps of a delete. */
  method ServeDelete(server: Server, ghost s: Site, text: string, parsed: Option<string>, fails: bool)
      returns (r: Response, ghost t: Site)
    requires Shaped(s) && Represents(server, s) && parsed == s.parse(text)
    modifies server, server.table, server.jobs.Values
    ensures t == Next(Next(s, Cancel(text)), Drop(text, !fails)) && Represents(server, t)
    ensures text in old(server.jobs) ==> old(server.jobs)[text].cancelled
    ensures r == NoContent <==> parsed.Some? && !fails
  {
    t := Next(Next(s, Cancel(text)), Drop(text, !fails));
    r := server.HandleDeleteJob(text, parsed, fails);
  }

  /** HandleCreateJob carries out the first two steps of job j, or none. */
  method ServeCreate(server: Server, ghost s: Site, ghost j: nat, sourceDir: string, files: seq<Path>,
      generated: Option<string>)
    returns (r: Response, ghost t: Site)
    requires Shaped(s) && Represents(server, s) && j < |s.ids| && s.stages[j].Asked? && s.ids[j] !in s.rows
    requires files == s.world.configs[j].paths && sourceDir == s.sources[j]
    requires generated.Some? ==> generated.value == s.ids[j]
    modifies server, server.table
    ensures r.Accepted? <==> files != [] && generated.Some?
    ensures r.Accepted? ==> CanDo(s, MakeRow(j)) && CanDo(Next(s, MakeRow(j)), Enlist(j))
                            && t == Next(Next(s, MakeRow(j)), Enlist(j))
    ensures !r.Accepted? ==> t == s
    ensures Represents(server, t)
  {
    t := s;
    var context;
    r, context := server.HandleCreateJob(sourceDir, Some(files), generated);
    if r.Accepted? {
      t := Next(Next(s, MakeRow(j)), Enlist(j));
    }
  }

  /** The outcome of the call that a step makes agrees with the context it is made with and with the database. */
  predicate Answers(p: Action, done: bool, fails: bool) {
    match p
    case Read(_, ProgressOk) => !done && !fails
    case Read(_, ProgressFailed) => done || fails
    case Save(_, FailWritten) => !done && !fails
    case Save(_, FailLost) => done || fails
    case Main(CompletedWritten) => !done && !fails
    case Main(CompletedLost) => done || fails
    case _ => true
  }

  /** The call on the job table that a step of a pipeline makes. */
  method CallTable(table: JobTable, id: string, p: Action, done: bool, fails: bool)
    requires Answers(p, done, fails)
    modifies table
    ensures table.rows == CallOf(old(table.rows), id, p)
  {
    var ok: bool;
    match p
    case Read(_, ProgressOk) => ok := table.UpdateJobProgress(done, fails, id, 1);
    case Read(_, ProgressFailed) => ok := table.UpdateJobProgress(done, fails, id, 1);
    case Save(_, FailWritten) => ok := table.UpdateJobStatus(done, fails, id, "FAILED", true);
    case Save(_, FailLost) => ok := table.UpdateJobStatus(done, fails, id, "FAILED", true);
    case Main(CompletedWritten) => ok := table.UpdateJobStatus(done, fails, id, "COMPLETED", true);
    case Main(CompletedLost) => ok := table.UpdateJobStatus(done, fails, id, "COMPLETED", true);
    case _ =>
  }

  /** The calls that the steps of job j's pipeline make on the job table are those of the site, so by RowsMirrorRuns
      the row always shows the run. Progress and FAILED are written with the job's own context, COMPLETED with a
      fresh one. */
  method ServeStep(server: Server, ghost s: Site, ghost j: nat, id: string, p: Action, done: bool, fails: bool)
      returns (ghost t: Site)
    requires Represents(server, s) && CanDo(s, Step(j, p)) && id == s.ids[j] && Answers(p, done, fails)
    requires p.Read? || p.Save? ==> done == s.world.jobs[j].cancelled
    modifies server.table
    ensures t == Next(s, Step(j, p)) && Represents(server, t)
  {
    t := Next(s, Step(j, p));
    CallTable(server.table, id, p, done, fails);
  }

  /** The end of job j's goroutine unregisters it. */
  method ServeDelist(server: Server, ghost s: Site, ghost j: nat, id: string) returns (ghost t: Site)
    requires Represents(server, s) && CanDo(s, Delist(j)) && id == s.ids[j]
    modifies server
    ensures t == Next(s, Delist(j)) && Represents(server, t)
  {
    t := Next(s, Delist(j));
    server.Unregister(id);
  }

  // ---- Deletes that miss the job ----------------------------------------------------------------

  /** The steps of one job, as steps of the site. */
  function StepsOf(j: nat, run: seq<Action>): seq<SiteAction> {
    if run == [] then [] else [Step(j, run[0])] + StepsOf(j, run[1..])
  }

  /** A run of one job while nothing else happens at the site. */
  lemma {:induction false} LiftRun(s: Site, j: nat, run: seq<Action>)
    requires Shaped(s) && j < |s.ids| && s.stages[j].Underway? && Own(run)
        && Legal(s.world.configs[j], s.world.jobs[j], run)
    ensures Possible(s, StepsOf(j, run))
    ensures var t := Outcome(s, StepsOf(j, run));
      && t == s.(world := t.world, rows := t.rows) && t.rows.Keys == s.rows.Keys && t.world.configs == s.world.configs
      && t.world.jobs[j] == After(s.world.configs[j], s.world.jobs[j], run)
    decreases |run|
  {
    if run == [] {
    } else {
      var a := Step(j, run[0]);
      var t := Next(s, a);
      LiftRun(t, j, run[1..]);
      assert StepsOf(j, run)[0] == a && StepsOf(j, run)[1..] == StepsOf(j, run[1..]);
      assert t.rows.Keys == s.rows.Keys;
    }
  }

  lemma RunRest(s: Site, run: seq<SiteAction>)
    requires run != [] && Possible(s, run)
    ensures CanDo(s, run[0]) && Possible(Next(s, run[0]), run[1..])
    ensures Outcome(s, run) == Outcome(Next(s, run[0]), run[1..])
  {
  }

  lemma RunStarts(s: Site, t: Site, run: seq<SiteAction>)
    requires run != [] && CanDo(s, run[0]) && t == Next(s, run[0]) && Possible(t, run[1..])
    ensures Possible(s, run) && Outcome(s, run) == Outcome(t, run[1..])
  {
  }

  lemma ConcatRest<T>(xs: seq<T>, ys: seq<T>)
    requires xs != []
    ensures xs + ys != [] && (xs + ys)[0] == xs[0] && (xs + ys)[1..] == xs[1..] + ys
  {
  }

  lemma {:induction false} RunsConcat(s: Site, xs: seq<SiteAction>, m: Site, ys: seq<SiteAction>)
    requires Possible(s, xs) && m == Outcome(s, xs) && Possible(m, ys)
    ensures Possible(s, xs + ys) && Outcome(s, xs + ys) == Outcome(m, ys)
    decreases |xs|
  {
    if xs == [] {
      assert xs + ys == ys;
    } else {
      RunRest(s, xs);
      RunsConcat(Next(s, xs[0]), xs[1..], m, ys);
      ConcatRest(xs, ys);
      RunStarts(s, Next(s, xs[0]), xs + ys);
    }
  }

  /** Two spellings of one id. */
  function Spelled(text: string): Option<string> { if text == "id" || text == "ID" then Some("id") else None }

  /** A site with one small job. */
  function SmallSite(): Site { Begin(Spelled, [Small()], ["id"], ["pcaps"], map[], {}) }

  lemma Perform(s: Site, run: seq<SiteAction>, u: Site, a: SiteAction) returns (run': seq<SiteAction>, t: Site)
    requires Possible(s, run) && u == Outcome(s, run) && CanDo(u, a)
    ensures run' == run + [a] && Possible(s, run') && t == Outcome(s, run') && t == Next(u, a)
  {
    t := Next(u, a);
    assert [a][1..] == [];
    assert Possible(t, []) && Possible(u, [a]) && Outcome(u, [a]) == t;
    RunsConcat(s, run, u, [a]);
    run' := run + [a];
  }

  /** The small job, launched and live, from the start to the point where its row is in the table of packets. */
  lemma CopiesItsRow(s: Site, run: seq<SiteAction>, u: Site) returns (run': seq<SiteAction>, t: Site)
    requires Possible(s, run) && u == Outcome(s, run) && Shaped(u) && u.ids == ["id"] && u.stages == [Underway]
    requires u.world.configs == [Small()] && u.world.jobs == [Init(Small(), {})]
    ensures run <= run' && Possible(s, run') && t == Outcome(s, run') && t.rows.Keys == u.rows.Keys
        && t.registry == u.registry
    ensures |t.world.jobs| == 1 && !t.world.jobs[0].cancelled && t.world.jobs[0].job.table == [ONE_ROW]
  {
    var small, v := SmallRunReads();
    LiftRun(u, 0, small);
    RunsConcat(s, run, u, StepsOf(0, small));
    run', t := run + StepsOf(0, small), Outcome(u, StepsOf(0, small));
    LastCopy(t);
    run', t := Perform(s, run', t, Step(0, Save(0, CopyOk(false))));
  }

  /** The copy of the small job's only batch. */
  lemma LastCopy(u: Site)
    requires Shaped(u) && u.stages == [Underway] && |u.ids| == 1 && u.world.configs == [Small()]
    requires Untouched(u.world.jobs[0]) && u.world.jobs[0].savers == [Saver(SWrite([ONE_ROW]), 0, MIN_BACKOFF)]
    ensures var a := Step(0, Save(0, CopyOk(false)));
      && CanDo(u, a) && Next(u, a).rows == u.rows && Next(u, a).registry == u.registry && |Next(u, a).world.jobs| == 1
      && !Next(u, a).world.jobs[0].cancelled && Next(u, a).world.jobs[0].job.table == [ONE_ROW]
  {
    assert [] + [ONE_ROW] == [ONE_ROW];
  }

  lemma SmallSiteIs()
    ensures SmallSite()
        == Site(Spelled, World([Small()], [Init(Small(), {})]), ["id"], ["pcaps"], [Asked], map[], map[], multiset{})
    ensures Sound(SmallSite())
  {
    assert SmallSite().world.jobs == [Init(Small(), {})];
    assert SmallSite().stages == [Asked];
  }

  /** A delete under a text that no job is registered under removes the row the text denotes, and nothing else. */
  lemma DeleteMisses(s: Site, run: seq<SiteAction>, u: Site, text: string, id: string)
      returns (run': seq<SiteAction>, t: Site)
    requires Possible(s, run) && u == Outcome(s, run) && Shaped(u) && text !in u.registry && u.parse(text) == Some(id)
    ensures run' == run + [Cancel(text)] + [Drop(text, true)] && Possible(s, run') && t == Outcome(s, run')
    ensures t == u.(rows := u.rows - {id})
  {
    run', t := Perform(s, run, u, Cancel(text));
    MissStep(u, text, id);
    run', t := Perform(s, run', t, Drop(text, true));
  }

  lemma MissStep(u: Site, text: string, id: string)
    requires Shaped(u) && text !in u.registry && u.parse(text) == Some(id)
    ensures var v := Next(u, Cancel(text));
      CanDo(v, Drop(text, true)) && Next(v, Drop(text, true)) == u.(rows := u.rows - {id})
  {
    assert u.registry - {text} == u.registry;
    assert u.deleting + multiset{text} - multiset{text} == u.deleting;
  }

  /** A delete under another spelling of the id removes the row, and the job runs on and copies its packets. */
  lemma OtherSpellingMissesJob() returns (run: seq<SiteAction>)
    ensures Possible(SmallSite(), run) && Cancel("ID") in run
    ensures var t := Outcome(SmallSite(), run);
      Shaped(SmallSite()) && |t.world.jobs| == 1 && !t.world.jobs[0].cancelled && t.world.jobs[0].job.table == [ONE_ROW]
      && "id" !in t.rows && "id" in t.registry
  {
    var s, t := SmallSite(), SmallSite();
    SmallSiteIs();
    run, t := Perform(s, [], t, MakeRow(0));
    run, t := Perform(s, run, t, Enlist(0));
    assert t.registry == map["id" := 0];
    run, t := DeleteMisses(s, run, t, "ID", "id");
    assert run[|run| - 2] == Cancel("ID");
    run, t := CopiesItsRow(s, run, t);
  }

  /** So does a delete under the right id that comes before the job is registered. */
  lemma EarlyDeleteMissesJob() returns (run: seq<SiteAction>)
    ensures Possible(SmallSite(), run) && Cancel("id") in run
    ensures var t := Outcome(SmallSite(), run);
      Shaped(SmallSite()) && |t.world.jobs| == 1 && !t.world.jobs[0].cancelled
          && t.world.jobs[0].job.table == [ONE_ROW] && "id" !in t.rows
  {
    var s, t := SmallSite(), SmallSite();
    SmallSiteIs();
    run, t := Perform(s, [], t, MakeRow(0));
    run, t := DeleteMisses(s, run, t, "id", "id");
    assert run[|run| - 2] == Cancel("id");
    run, t := Perform(s, run, t, Enlist(0));
    run, t := CopiesItsRow(s, run, t);
  }
}
