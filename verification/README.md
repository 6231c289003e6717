# Verified model of the packet tooling

A Dafny model of the go-sniffer extraction pipeline, its packet query API and rate limiter, and of the
live-sniffer's capture workers and session lifecycle. `dafny verify dfyconfig.toml` checks everything.

## What is modelled

**Extraction pipeline** (`Pipeline*.dfy`, `Jobs.dfy`, `Workers.dfy`, `Capture.dfy`, `Aggregates.dfy`).
`ProcessWithPool` is a transition system over any number of checksum workers, readers and savers (zero
included), any file list and any interleaving. A state holds the program counter of every goroutine, the
contents, capacity and closed bit of the four channels, the context's cancelled bit, the two atomic counters,
the job's part of the database, and the shared checksum table. An action names the goroutine that moves and
settles the choice it makes: which ready arm of a `select` is taken, and whether a database call succeeds.
Each worker is also written as the loop the program runs (`Workers.dfy`), proved to follow the same automaton,
guards on the context included; an `Env` argument says after how many steps of the worker the context is
cancelled, if ever, and whether calls may fail and other workers may insert.
`Jobs.dfy` composes several jobs over one checksum table; `JobSite.dfy` and `JobSiteRows.dfy` add the server's
registry of running jobs and the job rows, with create and delete requests interleaved with the steps of all jobs.

Modelling assumptions: a file is a finite list of events (packet, corrupt record, truncation); a path has
the same content whenever it is opened; every database call returns and is atomic; a call made with an
already cancelled context fails without effect; other failures can happen at any call. The time between two
steps is arbitrary, so timeouts and sleeps are free choices. Launching all savers, readers and the closing
goroutines is one step. The state also carries a history (paths accepted, rows decoded, sent, dropped) that
no step reads; it is there to state conservation.

**Packet queries** (`Text.dfy`, `PacketFilters.dfy`, `PacketQuery.dfy`, `Pagination.dfy`, `PaginationTable.dfy`,
`PaginationDescending.dfy`, `PacketEndpoint.dfy`). Filter strings on both sides of the API, parameter
validation, the SQL builder, a parser for the text it emits, and cursor pagination over a fixed set of matching
rows with nanosecond times and whole-second cursors. Sorting is any order that respects time, so rows with equal
times may come in any order. How a field is compared with an argument is a parameter, and so is the parsing of
RFC 3339 text.

**Token bucket** (`RateLimiter.dfy`): real-valued tokens and seconds, clock readings as arguments.

**Job rows and registry** (`JobServer.dfy`, `Contexts.dfy`): the objects the job handlers update, shown in
`JobSiteRows.dfy` to carry out the steps of the site.

**Live sniffer** (`LiveWorkers.dfy`, `Sessions.dfy`, `Launcher.dfy`): listener and saver loops, the launcher's
registry, and concurrent starts, stops, crashes and shutdowns as a transition system in which a shutdown is its
list of sessions, one critical section and one status write per session, and the cancellation.

## Where the code differs from its description

- A FAILED status does not survive: the final COMPLETED write is unconditional, so a job that lost every packet
  can read COMPLETED. `FailedIsOverwritten` is a concrete run; `FinalStatus` says exactly which status remains.
- Pagination promises to reach the last page and is documented to end with a null cursor. It ends if and only if
  every open one-second interval holds fewer rows than the limit (`WalksEndExactly`, `OneRowNeverEnds`). When it
  ends it has lost rows if and only if some full page ends inside a group of rows that share a whole second
  (`AllShownExactly`, `TieIsMissed`), and it has shown rows twice if and only if some full page ends at a time
  that is not a whole second (`NoneTwiceExactly`, `RowShownTwice`). Where the pages end is a function of the
  table and the limit (`TableEnd`). Without the `time` column the cursor is the zero time and the walk never
  advances (`NoTimeColumnNoProgress`). A first request may itself carry a cursor; if that lies inside a second with
  later instants, the next page can go back before it (`FractionalCursorGoesBack`).
- In descending order, the default of the Python client, the cursor still asks for later rows. Following it never
  gets past the first page: no row older than its last one is ever shown (`NothingOlderShown`, `FollowingDown`). It
  ends after one more, short page if the first ends at a whole second, and never ends otherwise
  (`DescendingEndsExactly`, `FirstPageAgain`); a walk that ends has shown all rows if and only if they fit on one page
  (`DescendingShowsAllExactly`).
- A completed job need not read 100 percent. If nothing goes wrong it does if and only if every listed file can be
  hashed and read, was not seen before and has a checksum of its own in the list (`CompleteProgressExactly`); one
  file listed twice ends COMPLETED at 50 percent (`CompletedBelowHundred`), and a listed file without a pcap header
  keeps every such job below 100 (`BadFileBelowHundred`).
- A checksum is recorded before the file's rows are saved, so rows that a cancelled job loses are never read again
  (`NeverAcceptedAgain`, `LostForGood`).
- The comment in the reader says that a packet without an IP layer is skipped; the row is kept, and the model
  keeps it. The live listener does drop such rows.
- `go-sniffer/README.md` says there is no checksum check; the code has one, and the model follows the code.
- A delete request cancels the job registered under the very text of the request (`DeleteCancelsExactly`). Under
  another spelling of the id, or before the job is registered, it deletes the row and the job runs on
  (`OtherSpellingMissesJob`, `EarlyDeleteMissesJob`).
- "finished" is the only status a stop writes, while a restart looks for 'stopped' or 'crashed' rows, so finished
  sessions are never taken over. A finished status lasts exactly if every pipeline of the session is dead, or has
  been started and has no saver left (`FinishedForeverExactly`); a stop that comes before the pipeline is
  registered is overwritten (`StoppedYetRunning`), and one under another spelling of the id writes "finished" and
  leaves the pipeline running (`StopCancelsExactly`, `AliasStopMissesPipeline`).
- A shutdown finishes exactly the sessions that were registered when it took its list
  (`ShutdownFinishesExactly`). The pipeline of a session started later is dead, and the session keeps the status
  it had when the daemon's context was cancelled, starting or running (`LateStartNeverFinished`).

## Model

| member | source | states |
|---|---|---|
| PipelineControl.ReachableControl | go-sniffer/internal/worker/workerpools.go:44-84 | in every reachable state closed channels mean finished senders, the packet stream holds at most 100 batches, the places of paths and the progress counter add up to at most the fed paths, and collected counts match finished savers |
| PipelinePaths.PathsLocated | go-sniffer/internal/worker/workerpools.go:44-84 | path by path: in every reachable state a path waits, is checked or was accepted at most as often as it was fed, and is handed on, queued, read or counted at most as often as it was accepted |
| PipelineControl.NoPanic | go-sniffer/internal/worker/workerpools.go:55-79 | no reachable step sends on a closed channel or closes one twice |
| PipelineControl.BuffersSuffice | go-sniffer/internal/worker/workerpools.go:44-47 | feeding a path, handing an accepted path on and reporting a count never block |
| PipelineControl.NoDeadlock | go-sniffer/internal/worker/workerpools.go:27-112 | in every reachable state that is not final some goroutine can move, without a database failure unless the context is cancelled, for any worker counts |
| PipelineProgress.WorkFalls | go-sniffer/internal/worker/workerpools.go:27-112 | every action of the job and its cancellation lowers one natural number |
| PipelineProgress.RunsEnd | go-sniffer/internal/worker/workerpools.go:27-112 | no run is longer than the initial work, and a run that no goroutine can extend has ended in all of them |
| PipelineProgress.QuietAfterCompleted | go-sniffer/internal/worker/workerpools.go:81-89 | no saver moves after the final status write, so FAILED precedes it and no copy follows |
| PipelineProgress.CollectedMeansRead | go-sniffer/internal/worker/workerpools.go:76-89 | without cancellation and with a reader and a saver, all readers and checksum workers are done by then, `validFiles` and `packetStream` are empty, and so is `files` if there is a checksum worker |
| PipelineRows.ReadersBatch | go-sniffer/internal/worker/ingestion.go:52-150 | in every reachable state a reader has sent a multiple of 500 rows from the front of its file, and the next batch is 500 rows or the non-empty rest |
| PipelineRows.Conservation | go-sniffer/internal/worker/ingestion.go:131-150 | every decoded row is in a batch, on the stream, with a saver, in the table or dropped, and is dropped only after cancellation |
| PipelineRows.TableWithinAccepted | go-sniffer/internal/worker/saver.go:45-66 | the table is a sub-multiset of the accepted files' rows in every reachable state |
| PipelineRows.CountedFilesWereSent | go-sniffer/internal/worker/ingestion.go:155-157 | all rows of every file counted as progress were put on the stream |
| PipelineRows.OnlyCapturesCount | go-sniffer/internal/worker/ingestion.go:40-50 | in every reachable state every counted file could be opened and has a pcap header, and every row of the table is a packet of an accepted file that could and has |
| PipelineExact.CountsAreRows | go-sniffer/internal/worker/workerpools.go:81-93 | in every run, cancelled or not, totalPackets and totalSaved equal the job's rows in the table when the final status is written |
| PipelineExact.Exactness | go-sniffer/internal/worker/workerpools.go:66-93 | without cancellation the table holds exactly the rows of the accepted readable files and totalRead, totalSaved, totalPackets equal their number |
| PipelineExact.UndisturbedRunsAreExact | go-sniffer/internal/worker/workerpools.go:66-93 | the same for every run without external cancel and without a failed copy, with all workers done |
| PipelineExact.ProgressAtCompletion | go-sniffer/internal/worker/ingestion.go:155-157 | in such runs with no lost update files_read ends at the number of accepted readable files |
| PipelineCompletion.CompleteProgressExactly | go-sniffer/internal/worker/ingestion.go:155-157 | for any pool with workers of each kind, undisturbed, alone and with no lost update: the job ends with all files counted, at 100 percent, iff every listed file is hashable, readable and new and no two listed files have the same checksum |
| PipelineCompletion.BadFileBelowHundred | go-sniffer/internal/worker/ingestion.go:155-157 | in such a run a listed file that cannot be opened or has no pcap header leaves the job below 100 percent |
| PipelineCompletion.CompletedBelowHundred | go-sniffer/internal/worker/workerpools.go:86-89 | a run of a job with one file listed twice that ends COMPLETED at 50 percent |
| PipelineOutcome.FrozenOnceCancelled | go-sniffer/internal/worker/saver.go:55-60 | after cancellation no row, source file, progress or FAILED write takes effect in any continuation; only one COMPLETED can |
| PipelineOutcome.FailedCopyFreezes | go-sniffer/internal/worker/saver.go:55-61 | a saver's abort freezes the job |
| PipelineOutcome.FinalStatus | go-sniffer/internal/worker/workerpools.go:86-89 | the status ends as COMPLETED iff the run wrote it, and as FAILED iff it did not and some saver of the run wrote FAILED |
| PipelineOutcome.FailedIsOverwritten | go-sniffer/internal/worker/saver.go:55-60 | a concrete run with an empty table and a FAILED write that ends as COMPLETED |
| PipelineSequential.SequentialOrder | go-sniffer/internal/worker/workerpools.go:49-84 | with one worker of each kind the table is the accepted files' rows concatenated, in the order of the file list |
| PipelineSequential.SequentialRefinement | go-sniffer/internal/worker/workerpools.go:49-84 | if also nobody interferes the table and the checksum table are those of the sequential check-and-append program |
| PipelineAccepts.AcceptsOnePerNewSum | go-sniffer/internal/storage/database.go:30-67 | for any pool with workers of each kind, undisturbed and alone: the checksums known in the end are those known before and those of all hashable listed files, with exactly one accepted file per new one |
| PipelineAccepts.ScheduleIndependent | go-sniffer/internal/worker/workerpools.go:49-84 | two such pools of any sizes over the same files add the same rows under any schedules, if equal checksums mean equal rows |
| Jobs.TakenOnlyIfAccepted | go-sniffer/internal/storage/database.go:62-67 | no path is taken by readers more often than it was accepted |
| Jobs.ProjectionIsRun | go-sniffer/internal/api/jobs.go:114-125 | in any interleaving of concurrent jobs each job is a run of the single pipeline |
| Jobs.AtMostOnce | go-sniffer/internal/storage/database.go:30-67 | over all concurrent jobs no two accepted files share a checksum, none was known before, each is taken at most once, and tables stay within accepted rows |
| Jobs.NeverAcceptedAgain | go-sniffer/internal/storage/database.go:44-60 | no job of any world that starts from the checksums an earlier world leaves accepts a file with a checksum accepted there |
| Jobs.LostForGood | go-sniffer/internal/worker/saver.go:55-61 | a run that loses its only row and after which no run of the same job from the checksums left ever has a row in its table |
| Jobs.ProgressIsSound | go-sniffer/internal/storage/job_tracking.go:91-103 | files_read stays between 0 and the number of files and never falls; the percentage is in 0..100 and is 100 iff they are equal |
| Jobs.PercentageRange | go-sniffer/internal/api/jobs.go:30-34 | the integer percentage is in range and 100 exactly for equal counts |
| Jobs.PercentageIsFloor | go-sniffer/internal/api/jobs.go:30-34 | the percentage is the greatest p with p * total_files <= 100 * files_read, and 0 without files |
| Jobs.CancelFreezesJob | go-sniffer/internal/worker/workerpools.go:38-39 | cancelling the context of one of several jobs freezes that job in every continuation |
| JobSite.SiteRunsItsJobs | go-sniffer/internal/api/jobs.go:114-125 | with requests, launches, deletes and all jobs interleaved, the jobs run as the concurrent jobs do |
| JobSite.DeleteCancelsExactly | go-sniffer/internal/api/jobs.go:152-158 | a delete cancels the job registered under the very text, leaving every other job as it is |
| JobSite.DeleteFindsJob | go-sniffer/internal/api/jobs.go:114-125 | in every run of the site a delete under the id of a launched job leaves its context cancelled |
| JobSite.DeleteFreezes | go-sniffer/internal/api/jobs.go:152-158 | deleting under the registered text freezes exactly that job in every continuation |
| JobSite.CancelledExactly | go-sniffer/internal/api/jobs.go:114-125 | a job is cancelled in a run iff it is deleted under its id while registered, one of its savers aborts, or its pool returns |
| JobSiteRows.OtherSpellingMissesJob | go-sniffer/internal/api/jobs.go:145-170 | a run in which a delete under another spelling removes the row and the job still copies its rows |
| JobSiteRows.EarlyDeleteMissesJob | go-sniffer/internal/api/jobs.go:108-118 | a run in which a delete between the insert of the row and the registration removes the row and the job still copies its rows |
| JobSiteRows.RowsMirrorRuns | go-sniffer/internal/storage/job_tracking.go:65-120 | in every run of the site each job row that exists shows the last status its run wrote, a completion time iff one was written, and the files its run counted |
| JobSiteRows.ForeignRowKept | go-sniffer/internal/storage/job_tracking.go:91-120 | a row that is no job of the site changes only by a delete that denotes it |
| JobSiteRows.ResponsesInRange | go-sniffer/internal/api/jobs.go:30-45 | the percentage computed from any existing row of a job is in 0..100, and 100 iff all files have been counted |
| JobSiteRows.CallTable | go-sniffer/internal/storage/job_tracking.go:91-120 | the call a step makes on the job table has the effect the site gives the step |
| JobSiteRows.ServeStep | go-sniffer/internal/worker/ingestion.go:155-157 | the table object follows the site through the steps of a job, its progress and FAILED calls made with the job's own context |
| JobSiteRows.ServeDelist | go-sniffer/internal/api/jobs.go:118-122 | the end of the job's goroutine unregisters the job |
| JobSiteRows.ServeDelete | go-sniffer/internal/api/jobs.go:145-170 | the delete handler carries out the two steps of a delete on the registry and table objects |
| JobSiteRows.ServeCreate | go-sniffer/internal/api/jobs.go:90-125 | the create handler inserts the row and registers a live context for the job, or does nothing |
| Workers.GuardsSplit | go-sniffer/internal/worker/workerpools.go:38-64 | the guards of the pipeline's workers are what the context allows and what the channels and the checksum table offer |
| Workers.ReaderHeeds | go-sniffer/internal/worker/ingestion.go:27-32 | a reader following its automaton shows cancellation only from the moment the context is cancelled, and from then on never finds it live nor writes progress |
| Workers.SaverHeeds | go-sniffer/internal/worker/saver.go:36-61 | from the moment of cancellation a saver copies no batch with rows and does not write FAILED |
| Workers.CheckerHeeds | go-sniffer/internal/storage/database.go:44-67 | from the moment of cancellation a checksum worker inserts nothing and finds no duplicate |
| Workers.ExtractFile | go-sniffer/internal/worker/ingestion.go:37-153 | the loop follows the reader automaton; it fails and sends nothing if the file cannot be opened or its pcap header does not parse; otherwise its batches are the file's rows, all but the last of 500, or on cancellation a prefix of whole batches, none if it was cancelled by the time the file was open |
| Workers.PcapWorker | go-sniffer/internal/worker/ingestion.go:23-169 | the loop follows the automaton and its guards on the context; every file it counts could be opened and has a pcap header; unless cancelled it sends the rows of all its files in order, and if no call fails it counts exactly the readable ones |
| Workers.PacketSaverWorker | go-sniffer/internal/worker/saver.go:21-88 | the loop follows the automaton and its guards on the context; it copies a prefix of its batches, all of them unless the context is cancelled or a call fails, counts them, and throttles as its writes call for |
| Workers.CopyBatch | go-sniffer/internal/worker/saver.go:55-72 | on a cancelled context a batch with rows fails; a failed copy ends in an abort, a successful one adds the batch to the count and sets the throttle |
| Workers.CheckOne | go-sniffer/internal/storage/database.go:30-60 | a file is taken only if the context is live, it hashes, and its checksum was new and is recorded; in a quiet environment it is taken exactly then |
| Workers.CheckAndInsertSourceFile | go-sniffer/internal/storage/database.go:27-69 | the loop follows the automaton and its guards on the context; it accepts hashable files with new checksums once each, hands all of them on unless cancelled, and in a quiet environment accepts exactly what a check in list order does |
| Workers.CollectCounts | go-sniffer/internal/worker/workerpools.go:81-84 | totalPackets is the sum of the counts |
| Workers.ProcessInStages | go-sniffer/internal/worker/workerpools.go:27-93 | on the stage-by-stage schedule an uncancelled pool copies exactly the accepted files' rows in order, and in a quiet environment computes the same sequential program as SequentialRefinement |
| Workers.BackoffClosedForm | go-sniffer/internal/worker/saver.go:68-84 | after any history the throttle is min(3000, 25 * 3^k) ms for k trailing slow writes |
| Workers.BackoffTracksWrites | go-sniffer/internal/worker/saver.go:68-84 | the throttle of any saver of the pipeline is the one its writes call for |
| RateLimiter.Bucket.Allow | go-sniffer/internal/api/rate_limiter.go:26-40 | one call refills, clips, decides and takes a token |
| RateLimiter.Bucket.Serve | go-sniffer/internal/api/rate_limiter.go:26-40 | a trace of calls makes the decisions the trace lemmas speak of |
| RateLimiter.AllowIsExact | go-sniffer/internal/api/rate_limiter.go:26-40 | a call is admitted iff for every call up to it the admissions since plus one are within max + rate * elapsed |
| RateLimiter.BucketIsMaximal | go-sniffer/internal/api/rate_limiter.go:26-40 | the bucket keeps every window and no policy that does admits more by any point |
| RateLimiter.WindowBound | go-sniffer/internal/api/rate_limiter.go:29-38 | with both clock readings tokens stay in [0, max] and a window admits at most max + rate * elapsed |
| PacketFilters.ResolveFilters | go-sniffer/internal/api/packets.go:100-119 | succeeds iff every entry is field:op:value with known field and operator, keeps order and values, and names the first fault; eq, ne, gt, lt, gte and lte compare for equal, different, greater, less, at least and at most |
| PacketFilters.DenotesUnique | go-sniffer/internal/api/packets.go:103-116 | an entry stands for at most one filter, colons in values included |
| PacketFilters.FaultMeaning | go-sniffer/internal/api/packets.go:103-115 | an entry has a fault exactly when it stands for no filter |
| PacketFilters.QueryPacketsFilters | mcp/tools/packets.py:47-63 | the client's list has one entry for every argument that is neither None nor an empty text, in order, and encodes exactly the intended filters |
| PacketFilters.ClientToServer | mcp/tools/packets.py:47-69 | what the client sends is accepted and decodes to exactly the intended filters |
| Text.AtoiFormat | go-sniffer/internal/api/packets.go:144-151 | Atoi reads every 64-bit number back from its decimal text and refuses all other numbers |
| Text.AtoiReads | go-sniffer/internal/api/packets.go:148-151 | what Atoi reads is digits after an optional sign, and a plus sign changes nothing |
| PacketQuery.ResolveColumns | go-sniffer/internal/api/packets.go:85-97 | succeeds iff all names are known, keeps them, and defaults when none are given |
| PacketQuery.ParseListPacketsParams | go-sniffer/internal/api/packets.go:141-184 | accepts exactly the well-formed requests and returns what they say, by default 100 rows, all columns but the job id, no cursor and ascending order; otherwise names the first fault in the order of the checks |
| PacketQuery.BuildPacketQuery | go-sniffer/internal/api/packets.go:186-226 | the builder loop emits the text and arguments of the statement the parameters stand for |
| PacketQuery.TextRoundTrip | go-sniffer/internal/api/packets.go:208-224 | parsing the text of any printable statement gives the statement back |
| PacketQuery.QueryMeansParams | go-sniffer/internal/api/packets.go:186-226 | for validated parameters the text parses to columns, clauses and order asked for, placeholders are $1..$n in order, and it selects cursor bound and all filters, limited |
| PacketEndpoint.SelectedIsEligible | go-sniffer/internal/api/packets.go:192-196 | the rows that the emitted text selects are the rows matching the filters, after the cursor |
| PacketEndpoint.AnswersArePages | go-sniffer/internal/api/packets.go:186-226 | the answers to the emitted statement are exactly the pages of the matching rows |
| PacketEndpoint.Respond | go-sniffer/internal/api/packets.go:278-313 | each of the nine fields shows the row's value if its name is selected and is empty if not; a full page gets a cursor, the whole second of its last row, or the zero time without the time column |
| PacketEndpoint.NumberFilterKeeps | go-sniffer/internal/api/packets.go:41-48 | an entry with a number on a numeric field keeps exactly the rows whose field is equal, different, greater, less, at least or at most the number, as its operator asks |
| PacketEndpoint.FollowingIsWalking | go-sniffer/internal/api/packets.go:307-310 | repeating a request, with a first cursor or without, with the last cursor gives exactly the walks over the matching rows after the first cursor, unless that cursor lies inside a second that has later instants |
| PacketEndpoint.FollowingDown | mcp/tools/packets.py:21-44 | in descending order following the cursor gives exactly the descending walks, and never shows a row older than the last one of a full first page |
| PacketEndpoint.FractionalCursorGoesBack | go-sniffer/internal/api/packets.go:192-196 | from any other first cursor, for any limit and filters, a table on which the second page shows a row the first request had excluded |
| Pagination.QueryPackets | go-sniffer/internal/api/packets.go:278-313 | rows become packets column by column; exactly a full page gets a cursor, the beginning of the second of its last row |
| Pagination.MissedExactly | go-sniffer/internal/api/packets.go:192-196 | a complete walk misses a row iff some cursor equals its time before it was shown |
| PaginationTable.CursorsOfTable | go-sniffer/internal/api/packets.go:307-310 | the cursors and page ends of every walk are functions of the table and the limit, however ties are ordered |
| PaginationTable.AllShownExactly | go-sniffer/internal/api/packets.go:192-196 | a complete walk shows every matching row iff no full page of the table ends inside a group of rows sharing a whole second |
| PaginationTable.NoneTwiceExactly | go-sniffer/internal/api/packets.go:307-310 | a complete walk shows no row twice iff every full page of the table ends at a whole second |
| PaginationTable.RowShownTwice | go-sniffer/internal/api/packets.go:307-310 | a complete walk over rows at 0, 1.5 and 2 seconds that shows one of them twice |
| PaginationTable.OnceInOrderExactly | go-sniffer/internal/api/packets.go:307-310 | a complete walk shows the rows once each in ascending order iff every full page ends at a whole second and takes all rows of it |
| Pagination.CompleteWalkVisitsAll | go-sniffer/internal/api/packets.go:307-310 | without ties at whole seconds a complete walk shows every matching row |
| Pagination.TieIsMissed | go-sniffer/internal/api/packets.go:192-196 | a concrete complete walk that misses a row |
| Pagination.WalksEndExactly | go-sniffer/internal/api/packets.go:307-310 | walks are bounded by the number of rows if no open second holds a page of rows, and otherwise never end |
| Pagination.OneRowNeverEnds | go-sniffer/internal/api/packets.go:307-310 | a concrete table on which following the cursor never ends |
| Pagination.CompleteWalkExists | go-sniffer/internal/api/packets.go:278-313 | without a dense second following the cursor does reach a null cursor |
| PaginationTable.EachRowOnceInOrder | go-sniffer/internal/api/packets.go:307-310 | with distinct whole-second times that is so, and following the cursor ends |
| PaginationTable.WalksAgree | go-sniffer/internal/api/packets.go:278-313 | all complete walks of a table have the same number of pages and the same cursors |
| PaginationDescending.NothingOlderShown | go-sniffer/internal/api/packets.go:192-196 | no descending walk shows a row older than the end of its full first page |
| PaginationDescending.DescendingEndsExactly | go-sniffer/internal/api/packets.go:307-310 | a descending walk ends with a first page that is not full, or one page after a full one that ends at a whole second, and never otherwise |
| PaginationDescending.FirstPageAgain | go-sniffer/internal/api/packets.go:192-196 | in the last case every walk can be continued, with the first page as its next |
| PaginationDescending.DescendingShowsAllExactly | go-sniffer/internal/api/packets.go:307-310 | a complete descending walk shows every row iff the rows fit on one page |
| Pagination.NoTimeColumnNoProgress | go-sniffer/internal/api/packets.go:307-310 | without the time column a full page's cursor asks for the first page again |
| JobServer.Server.HandleCreateJob | go-sniffer/internal/api/jobs.go:90-142 | registers a live context under the new id exactly when there are files and a row was created |
| JobServer.Server.HandleDeleteJob | go-sniffer/internal/api/jobs.go:145-170 | cancels exactly the job registered under the given text and removes the row the text denotes |
| LiveWorkers.ListenOnNetwork | live-sniffer/internal/network/listener.go:36-67 | packets are taken exactly until the context is done; attempted batches plus residue hold only rows with two valid addresses, each such row of the packets taken as often as it was delivered, in order; batch sizes; what is flushed |
| LiveWorkers.SaveLive | live-sniffer/internal/workers/saver.go:22-91 | the loop follows its automaton; it reads the messages in order, all of them unless it stops; it crashes exactly at a failed copy, which is its last read, and stops otherwise only on cancellation; rows, count and throttle are those of its copies, one for each delivery but the failed one |
| LiveWorkers.LiveAccounted | live-sniffer/internal/workers/saver.go:33-89 | whatever a live saver has been through, delivered rows are copied, in hand or lost in the failed copy, there is one copy per delivery, and the throttle is the one its copies call for |
| LiveWorkers.LiveHeeds | live-sniffer/internal/workers/saver.go:36-62 | from the moment of cancellation a live saver reads nothing, copies no batch with rows and does not write crashed |
| Sessions.StopIsFinal | live-sniffer/internal/pipeline/pipeline.go:87-102 | after the critical section of a stop under the registered name no status write of the stopped pipeline takes effect in any run |
| Sessions.StopCancelsExactly | live-sniffer/internal/pipeline/pipeline.go:87-102 | a stop cancels the pipeline registered under its very text and no other, and goes on to write finished on the session its text denotes |
| Sessions.StopFindsPipeline | live-sniffer/internal/pipeline/pipeline.go:55-62 | in every run from the start of the daemon a stop under the name of a session cancels its pipeline if that is registered or further and the only one of the session |
| Sessions.SaversStay | live-sniffer/internal/workers/saver.go:33-62 | along every run a live pipeline has all the savers spawned for it, less those about to cancel it after a failed copy |
| Sessions.RunningIsManned | live-sniffer/internal/pipeline/pipeline.go:67-82 | along every run a pipeline about to be marked running is dead or has a saver |
| Sessions.AliasStopMissesPipeline | live-sniffer/internal/pipeline/pipeline.go:87-102 | a run from the start of the daemon in which a stop under another spelling writes finished, cancels nothing, and the session then crashes |
| Sessions.FinishedForeverExactly | live-sniffer/internal/storage/sessions.go:18-60 | a finished status lasts in every run iff every pipeline of the session is dead or has returned and has no saver left; otherwise some run overwrites it |
| Sessions.StoppedYetRunning | live-sniffer/internal/pipeline/pipeline.go:59-84 | a run from the start of the daemon in which a stopped session ends up running |
| Sessions.StartsOnOwnInterface | live-sniffer/internal/storage/sessions.go:18-30 | a start can take over exactly the crashed sessions of its interface, which all read starting afterwards while every other status stays; it goes on to insert one exactly if there is none |
| Sessions.InsertsFollowLooks | live-sniffer/internal/storage/sessions.go:32-47 | along every run each inserted session answers a start on its interface that found none to take over |
| Sessions.CrashedUntilTakenOver | live-sniffer/internal/storage/sessions.go:21-27 | a crashed session with silent pipelines that no stop takes up stays crashed in every run until a start on its own interface |
| Sessions.StartElsewhereSparesCrashed | live-sniffer/internal/storage/sessions.go:18-48 | a run from the start of the daemon in which a crashed session survives a start on another interface, which gets its own session, and is taken over by the next start on its own |
| Sessions.ShutdownFinishes | live-sniffer/internal/pipeline/pipeline.go:104-115 | a session registered when a shutdown takes its list, with its other pipelines silent and undisturbed, reads finished when the shutdown is over, with all its pipelines silent |
| Sessions.ShutdownFinishesExactly | live-sniffer/internal/pipeline/pipeline.go:104-115 | a session that nobody is finishing when a shutdown takes its list reads finished when the shutdown is over iff it was registered then, if it is not disturbed when registered and not taken up by another stop or shutdown when not |
| Sessions.ShutdownCancelsAll | live-sniffer/internal/daemon/daemon.go:89-92 | when a shutdown is over every pipeline is dead, late registrations included, and the statuses are for good those at its cancellation |
| Sessions.ShutdownStopsItsList | live-sniffer/internal/pipeline/pipeline.go:104-115 | a shutdown that is over has had the critical section of a stop for every session on its list |
| Sessions.LateStartNeverFinished | live-sniffer/internal/pipeline/pipeline.go:104-115 | runs in which a pipeline started after the list was taken ends dead with its session reading starting, or running |
| Launcher.Launcher.StopPipeline | live-sniffer/internal/pipeline/pipeline.go:87-102 | cancels and forgets exactly the pipeline registered under the text and writes finished on the session the text denotes |
| Launcher.Launcher.StopAll | live-sniffer/internal/pipeline/pipeline.go:104-115 | without interference cancels every registered pipeline and marks exactly those sessions finished |

## Left out

- Packet decoding, the pcap format, live capture and the message broker: a packet is a row, a file a list of events.
- SHA-256: the checksum is a property of the file, and distinct files may share one, as the code hashes only 64 KiB.
- Postgres: NULLs, column types, the renaming of `job_id`, and what a delete does to packet rows.
- HTTP status codes, JSON, routing, command lines, configuration, migrations, the user interface and the chat loop.
- The TCP flag mask: 64 cases of a bitwise or.
- Rounding of floating-point tokens, and the packets-per-second figures.
- Workers.ProcessInStages: one schedule only; the statements for all schedules are those about `Pipeline`.
- Workers.PcapWorker: the loops take the elements they receive from their channel as a list; blocking is in `Pipeline`.
- JobServer.Server.HandleDeleteJob: parsing of UUID text is an argument, since the library is not part of this model.
- Workers.PacketSaverWorker: the context is cancelled between two steps of the worker, or by its own abort.
- JobSiteRows.ServeDelete: one request without interference; interleavings of requests and jobs are in `JobSite`.
- Launcher.Launcher.StopAll: runs without interference; interleavings of stops, starts and crashes are in `Sessions`.
- PacketEndpoint.FollowingIsWalking: the table does not change between requests.
