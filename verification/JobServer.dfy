/** The job rows and the HTTP server's registry of running jobs, as the objects the handlers update. */
module JobServer {
  import opened Wrappers
  import opened Contexts

  /** A row of job_tracking; `completedAt` says whether a completion time is set. */
  datatype JobRow = JobRow(status: string, completedAt: bool, sourceDir: string, totalFiles: nat, filesRead: nat)

  // The statements on job_tracking, as functions of its rows.
  function WithJob(rows: map<string, JobRow>, id: string, sourceDir: string, totalFiles: nat): map<string, JobRow> {
    rows[id := JobRow("PROCESSING", false, sourceDir, totalFiles, 0)]
  }

  function Progressed(rows: map<string, JobRow>, id: string, filesRead: nat): map<string, JobRow> {
    if id in rows then rows[id := rows[id].(filesRead := rows[id].filesRead + filesRead)] else rows
  }

  function Stamped(rows: map<string, JobRow>, id: string, status: string, completedAt: bool): map<string, JobRow> {
    if id in rows then rows[id := rows[id].(status := status, completedAt := completedAt)] else rows
  }

  class JobTable {
    var rows: map<string, JobRow>

    constructor ()
      ensures rows == map[]
    {
      rows := map[];
    }

    /** `generated` is the id the database generates for the row; None when the insert fails. */
    method CreateJob(generated: Option<string>, sourceDir: string, totalFiles: nat) returns (id: Option<string>)
      requires generated.Some? ==> generated.value !in rows
      modifies this
      ensures id == generated
      ensures rows == if generated.None? then old(rows) else WithJob(old(rows), generated.value, sourceDir, totalFiles)
    {
      if generated.Some? {
        rows := rows[generated.value := JobRow("PROCESSING", false, sourceDir, totalFiles, 0)];
      }
      id := generated;
    }

    /** Adds to files_read unless the context is done or the update fails; `ok` is false in those two cases. */
    method UpdateJobProgress(done: bool, fails: bool, id: string, filesRead: nat) returns (ok: bool)
      modifies this
      ensures ok == !(done || fails)
      ensures rows == if ok then Progressed(old(rows), id, filesRead) else old(rows)
    {
      ok := !(done || fails);
      if ok && id in rows {
        rows := rows[id := rows[id].(filesRead := rows[id].filesRead + filesRead)];
      }
    }

    /** Overwrites status and completion time unconditionally of what they were. */
    method UpdateJobStatus(done: bool, fails: bool, id: string, status: string, completedAt: bool) returns (ok: bool)
      modifies this
      ensures ok == !(done || fails)
      ensures rows == if ok then Stamped(old(rows), id, status, completedAt) else old(rows)
    {
      ok := !(done || fails);
      if ok && id in rows {
        rows := rows[id := rows[id].(status := status, completedAt := completedAt)];
      }
    }

    method DeleteJob(parsed: Option<string>, fails: bool) returns (ok: bool)
      modifies this
      ensures ok == (parsed.Some? && !fails)
      ensures rows == if ok then old(rows) - {parsed.value} else old(rows)
    {
      ok := parsed.Some? && !fails;
      if ok {
        rows := rows - {parsed.value};
      }
    }
  }

  /** The result of a request, errors aside from success not told apart. */
  datatype Response = Accepted(id: string) | BadRequest | ServerError | NoContent

  class Server {
    const table: JobTable
    var jobs: map<string, Context>

    constructor (table: JobTable)
      ensures this.table == table && jobs == map[] && Valid()
    {
      this.table, this.jobs := table, map[];
    }

    /** Every registered job has its own context. */
    ghost predicate Valid()
      reads this
    {
      forall a, b :: a in jobs && b in jobs && jobs[a] == jobs[b] ==> a == b
    }

    /** HandleCreateJob: with at least one file and a row created, a context that is not cancelled is registered
        under the new id and every other registration is kept; otherwise nothing changes. */
    method HandleCreateJob(sourceDir: string, files: Option<seq<string>>, generated: Option<string>)
      returns (r: Response, context: Context?)
      requires Valid() && (generated.Some? ==> generated.value !in table.rows)
      modifies this, table
      ensures Valid()
      ensures r.Accepted? <==> files.Some? && files.value != [] && generated.Some?
      ensures r.Accepted? ==> r.id == generated.value && context != null && fresh(context) && !context.cancelled
                              && jobs == old(jobs)[r.id := context]
                              && table.rows == WithJob(old(table.rows), r.id, sourceDir, |files.value|)
      ensures !r.Accepted? ==> context == null && jobs == old(jobs) && table.rows == old(table.rows)
    {
      context := null;
      if files.None? || |files.value| == 0 {
        return BadRequest, null;
      }
      var id := table.CreateJob(generated, sourceDir, |files.value|);
      if id.None? {
        return ServerError, null;
      }
      context := new Context();
      jobs := jobs[id.value := context];
      return Accepted(id.value), context;
    }

    /** The end of the job's goroutine. */
    method Unregister(id: string)
      requires Valid()
      modifies this
      ensures Valid() && jobs == old(jobs) - {id}
    {
      jobs := jobs - {id};
    }

    /** HandleDeleteJob: `text` is the id in the URL and `parsed` the job it denotes, if any. The job is cancelled
        exactly when its registration is under that very text, so another spelling of the same id deletes the
        row but leaves the job running; all other contexts are untouched. */
    method HandleDeleteJob(text: string, parsed: Option<string>, fails: bool) returns (r: Response)
      requires Valid()
      modifies this, table, jobs.Values
      ensures Valid() && jobs == old(jobs) - {text}
      ensures text in old(jobs) ==> old(jobs)[text].cancelled
      ensures forall id :: id in old(jobs) && id != text ==> old(jobs)[id].cancelled == old(jobs[id].cancelled)
      ensures table.rows == if parsed.Some? && !fails then old(table.rows) - {parsed.value} else old(table.rows)
      ensures r == if parsed.None? then BadRequest else if fails then ServerError else NoContent
    {
      if text in jobs {
        jobs[text].cancelled := true;
        jobs := jobs - {text};
      }
      var ok := table.DeleteJob(parsed, fails);
      r := if parsed.None? then BadRequest else if !ok then ServerError else NoContent;
    }
  }
}
