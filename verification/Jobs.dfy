/** The job table of database/repositories/jobs.py, and the transactions that move jobs:
    those of workers/runner.py and of apps/bot/jobs.py.  A transaction is a function from
    the committed rows to the committed rows; an exception inside it changes nothing. */
module Jobs {
  import opened Options
  import opened JobQueue

  datatype JobState = PENDING | RUNNING | COMPLETED | FAILED | CANCELLED {
    predicate Terminal() { COMPLETED? || FAILED? || CANCELLED? }
  }

  datatype Job = Job(kind: string, state: JobState, retryCount: nat, maxRetries: int, progress: int,
                     error: Option<string>, result: Option<string>,
                     startedAt: Option<real>, completedAt: Option<real>)

  type Rows = map<JobId, Job>

  datatype Result<+T> = Ok(value: T) | NotFound | IllegalTransition

  const DEFAULT_MAX_RETRIES := 3

  function Allowed(from: JobState): set<JobState> {
    match from
    case PENDING => {RUNNING, CANCELLED, FAILED}
    case RUNNING => {COMPLETED, FAILED, CANCELLED, PENDING}
    case COMPLETED => {}
    case FAILED => {PENDING}
    case CANCELLED => {}
  }

  function NewJob(kind: string, maxRetries: int): Job {
    Job(kind, PENDING, 0, maxRetries, 0, None, None, None, None)
  }

  function Percent(p: int): int { if p < 0 then 0 else if p > 100 then 100 else p }

  function Moved(job: Job, to: JobState, progress: Option<int>, error: Option<string>, result: Option<string>,
                 now: real): Job {
    var retry := to == PENDING && job.state == FAILED;
    job.(state := to,
         startedAt := if to == RUNNING && job.startedAt == None then Some(now) else job.startedAt,
         retryCount := if retry then job.retryCount + 1 else job.retryCount,
         completedAt := if to.Terminal() then Some(now) else job.completedAt,
         progress := if progress.Some? then Percent(progress.value) else job.progress,
         error := if error.Some? then error else if retry then None else job.error,
         result := if result.Some? then result else job.result)
  }

  /** `JobRepository.transition` on the rows. */
  function Transition(rows: Rows, id: JobId, to: JobState, progress: Option<int>, error: Option<string>,
                      result: Option<string>, now: real): Result<Rows>
  {
    if id !in rows then NotFound
    else if to != rows[id].state && to !in Allowed(rows[id].state) then IllegalTransition
    else Ok(rows[id := Moved(rows[id], to, progress, error, result, now)])
  }

  // ----- The transactions -----

  /** The first transaction of `_process`: the rows after it, and whether the handler runs. */
  function BeginTxn(rows: Rows, id: JobId, handlers: set<string>, now: real): (Rows, bool) {
    if id !in rows || rows[id].state.Terminal() then (rows, false)
    else if rows[id].kind !in handlers then
      match Transition(rows, id, FAILED, None, Some("no handler for kind '" + rows[id].kind + "'"), None, now)
      case Ok(rows') => (rows', false)
      case _ => (rows, false)
    else
      match Transition(rows, id, RUNNING, Some(0), None, None, now)
      case Ok(rows') => (rows', true)
      case _ => (rows, false)
  }

  /** The progress callback handed to the handler. */
  function ProgressTxn(rows: Rows, id: JobId, percent: int, now: real): Result<Rows> {
    Transition(rows, id, RUNNING, Some(percent), None, None, now)
  }

  /** The last transaction of `_process`, after the handler returned. */
  function FinishTxn(rows: Rows, id: JobId, summary: string, now: real): Result<Rows> {
    if id in rows && rows[id].state == CANCELLED then Ok(rows)
    else Transition(rows, id, COMPLETED, Some(100), None, Some(summary), now)
  }

  function Pow2(n: nat): nat { if n == 0 then 1 else 2 * Pow2(n - 1) }

  function Backoff(base: real, retryCount: nat): real { base * (Pow2(retryCount) as real) }

  /** `_on_failure` up to its enqueue: the rows to commit, and the delay when it retries. */
  function FailTxn(rows: Rows, id: JobId, error: string, base: real, now: real): Result<(Rows, Option<real>)> {
    if id !in rows then Ok((rows, None))
    else
      match Transition(rows, id, FAILED, None, Some(error), None, now)
      case NotFound => NotFound
      case IllegalTransition => IllegalTransition
      case Ok(failed) =>
        if failed[id].retryCount < failed[id].maxRetries then
          match Transition(failed, id, PENDING, None, None, None, now)
          case NotFound => NotFound
          case IllegalTransition => IllegalTransition
          case Ok(pending) => Ok((pending, Some(Backoff(base, pending[id].retryCount))))
        else Ok((failed, None))
  }

  function CancelTxn(rows: Rows, id: JobId, now: real): (Rows, bool) {
    if id !in rows || rows[id].state.Terminal() then (rows, false)
    else
      match Transition(rows, id, CANCELLED, None, None, None, now)
      case Ok(rows') => (rows', true)
      case _ => (rows, false)
  }

  /** `submit_job` after an enqueue that raised. */
  function SubmitFailedTxn(rows: Rows, id: JobId, now: real): Result<Rows> {
    Transition(rows, id, FAILED, None, Some("queue unavailable at submit time"), None, now)
  }

  // ----- The repository and the runner, over mutable rows -----

  /** The legal moves, written out. */
  ghost predicate Legal(from: JobState, to: JobState) {
    || from == to
    || (from == PENDING && (to == RUNNING || to == CANCELLED || to == FAILED))
    || (from == RUNNING && to != RUNNING)
    || (from == FAILED && to == PENDING)
  }

  ghost predicate Over(s: JobState) { s == COMPLETED || s == FAILED || s == CANCELLED }

  /** The columns of a job after a legal move, written out. */
  ghost predicate Written(j: Job, j': Job, to: JobState, progress: Option<int>, error: Option<string>,
                          result: Option<string>, now: real) {
    && j'.kind == j.kind && j'.maxRetries == j.maxRetries && j'.state == to
    && j'.retryCount == (if j.state == FAILED && to == PENDING then j.retryCount + 1 else j.retryCount)
    && (progress == None ==> j'.progress == j.progress)
    && (progress.Some? ==> j'.progress == if progress.value < 0 then 0 else if progress.value > 100 then 100
       else progress.value)
    && j'.error == (if error.Some? then error else if j.state == FAILED && to == PENDING then None else j.error)
    && j'.result == (if result.Some? then result else j.result)
    && j'.startedAt == (if to == RUNNING && j.startedAt == None then Some(now) else j.startedAt)
    && j'.completedAt == (if Over(to) then Some(now) else j.completedAt)
  }

  lemma MovedWritten(j: Job, to: JobState, progress: Option<int>, error: Option<string>, result: Option<string>,
                     now: real)
    ensures Written(j, Moved(j, to, progress, error, result, now), to, progress, error, result, now)
    ensures Legal(j.state, to) <==> to == j.state || to in Allowed(j.state)
  {
  }

  class JobRepository {
    var rows: Rows

    constructor ()
      ensures rows == map[]
    {
      rows := map[];
    }

    /** `create`: `id` is the fresh identifier drawn for the row. */
    method Create(id: JobId, kind: string, maxRetries: int)
      requires id !in rows
      modifies this
      ensures rows == old(rows)[id := NewJob(kind, maxRetries)]
      ensures rows == old(rows)[id := Job(kind, PENDING, 0, maxRetries, 0, None, None, None, None)]
    {
      rows := rows[id := NewJob(kind, maxRetries)];
    }

    method Move(id: JobId, to: JobState, progress: Option<int>, error: Option<string>, result: Option<string>,
                now: real)
      returns (r: Result<()>)
      modifies this
      ensures match Transition(old(rows), id, to, progress, error, result, now)
              case Ok(rows') => r == Ok(()) && rows == rows'
              case NotFound => r == NotFound && rows == old(rows)
              case IllegalTransition => r == IllegalTransition && rows == old(rows)
      ensures id !in old(rows) ==> r == NotFound && rows == old(rows)
      ensures id in old(rows) && !Legal(old(rows)[id].state, to) ==> r == IllegalTransition && rows == old(rows)
      ensures id in old(rows) && Legal(old(rows)[id].state, to) ==>
                && r == Ok(())
                && rows == old(rows)[id := rows[id]]
                && Written(old(rows)[id], rows[id], to, progress, error, result, now)
    {
      hide Written, Legal;
      if id !in rows { return NotFound; }
      var job := rows[id];
      MovedWritten(job, to, progress, error, result, now);
      var current := job.state;
      if to != current && to !in Allowed(current) { return IllegalTransition; }
      job := job.(state := to);
      if to == RUNNING && job.startedAt == None { job := job.(startedAt := Some(now)); }
      if to == PENDING && current == FAILED { job := job.(retryCount := job.retryCount + 1, error := None); }
      if to.Terminal() { job := job.(completedAt := Some(now)); }
      if progress.Some? { job := job.(progress := Percent(progress.value)); }
      if error.Some? { job := job.(error := error); }
      if result.Some? { job := job.(result := result); }
      rows := rows[id := job];
      return Ok(());
    }
  }

  /** The transactions as `workers/runner.py` and `apps/bot/jobs.py` run them: each works on
      the session's rows and restores them when an exception leaves the session scope. */
  class JobRunner {
    const queue: InMemoryJobQueue
    const retryBase: real
    const handlers: set<string>

    constructor (queue: InMemoryJobQueue, retryBase: real, handlers: set<string>)
      ensures this.queue == queue && this.retryBase == retryBase && this.handlers == handlers
    {
      this.queue, this.retryBase, this.handlers := queue, retryBase, handlers;
    }

    /** `submit_job`, with no other transaction in between; `id` is the row's fresh identifier. */
    method Submit(repo: JobRepository, id: JobId, kind: string, now: real, queueUp: bool) returns (submitted: bool)
      requires id !in repo.rows
      modifies repo, queue
      ensures submitted == queueUp
      ensures queueUp ==> repo.rows == old(repo.rows)[id := NewJob(kind, DEFAULT_MAX_RETRIES)]
      ensures var created := old(repo.rows)[id := NewJob(kind, DEFAULT_MAX_RETRIES)];
              !queueUp ==> SubmitFailedTxn(created, id, now) == Ok(repo.rows)
      ensures queue.Value() == if queueUp then Enqueued(old(queue.Value()), id, 0.0, now) else old(queue.Value())
      ensures queue.delayed == old(queue.delayed) && queue.ready == old(queue.ready) + if queueUp then [id] else []
      ensures repo.rows == old(repo.rows)[id :=
                if queueUp then Job(kind, PENDING, 0, 3, 0, None, None, None, None)
                else Job(kind, FAILED, 0, 3, 0, Some("queue unavailable at submit time"), None, None, Some(now))]
    {
      repo.Create(id, kind, DEFAULT_MAX_RETRIES);
      if !queueUp {
        var _ := repo.Move(id, FAILED, None, Some("queue unavailable at submit time"), None, now);
        return false;
      }
      queue.Enqueue(id, 0.0, now);
      return true;
    }

    method Begin(repo: JobRepository, id: JobId, now: real) returns (started: bool)
      modifies repo
      ensures (repo.rows, started) == BeginTxn(old(repo.rows), id, handlers, now)
      ensures id !in old(repo.rows) || Over(old(repo.rows)[id].state) ==> !started && repo.rows == old(repo.rows)
      ensures id in old(repo.rows) && !Over(old(repo.rows)[id].state) ==>
                var j := old(repo.rows)[id];
                && (started <==> j.kind in handlers)
                && repo.rows == old(repo.rows)[id :=
                     if started
                     then
                       j.(state := RUNNING, progress := 0,
                          startedAt := if j.startedAt == None then Some(now) else j.startedAt)
                     else
                       j.(state := FAILED, error := Some("no handler for kind '" + j.kind + "'"),
                          completedAt := Some(now))]
    {
      if id !in repo.rows || repo.rows[id].state.Terminal() { return false; }
      var kind := repo.rows[id].kind;
      if kind !in handlers {
        var _ := repo.Move(id, FAILED, None, Some("no handler for kind '" + kind + "'"), None, now);
        return false;
      }
      var r := repo.Move(id, RUNNING, Some(0), None, None, now);
      return r.Ok?;
    }

    /** The progress callback. */
    method Progress(repo: JobRepository, id: JobId, percent: int, now: real) returns (r: Result<()>)
      modifies repo
      ensures match ProgressTxn(old(repo.rows), id, percent, now)
              case Ok(rows') => r == Ok(()) && repo.rows == rows'
              case NotFound => r == NotFound && repo.rows == old(repo.rows)
              case IllegalTransition => r == IllegalTransition && repo.rows == old(repo.rows)
      ensures id !in old(repo.rows) || Over(old(repo.rows)[id].state) ==> !r.Ok? && repo.rows == old(repo.rows)
      ensures id in old(repo.rows) && old(repo.rows)[id].state == RUNNING && old(repo.rows)[id].startedAt != None ==>
                && r.Ok?
                && repo.rows == old(repo.rows)[id := old(repo.rows)[id].(progress :=
                     if percent < 0 then 0 else if percent > 100 then 100 else percent)]
    {
      r := repo.Move(id, RUNNING, Some(percent), None, None, now);
    }

    method Finish(repo: JobRepository, id: JobId, summary: string, now: real) returns (r: Result<()>)
      modifies repo
      ensures match FinishTxn(old(repo.rows), id, summary, now)
              case Ok(rows') => r == Ok(()) && repo.rows == rows'
              case NotFound => r == NotFound && repo.rows == old(repo.rows)
              case IllegalTransition => r == IllegalTransition && repo.rows == old(repo.rows)
      ensures id in old(repo.rows) && old(repo.rows)[id].state == CANCELLED ==> r.Ok? && repo.rows == old(repo.rows)
      ensures id !in old(repo.rows) || old(repo.rows)[id].state == PENDING || old(repo.rows)[id].state == FAILED ==>
                !r.Ok? && repo.rows == old(repo.rows)
      ensures id in old(repo.rows) && (old(repo.rows)[id].state == RUNNING || old(repo.rows)[id].state == COMPLETED) ==>
                && r.Ok?
                && repo.rows == old(repo.rows)[id := old(repo.rows)[id].(
                     state := COMPLETED, progress := 100, result := Some(summary), completedAt := Some(now))]
    {
      if id in repo.rows && repo.rows[id].state == CANCELLED { return Ok(()); }
      r := repo.Move(id, COMPLETED, Some(100), None, Some(summary), now);
    }

    /** `queueUp` tells whether the enqueue succeeds; one that raises rolls the rows back. */
    method OnFailure(repo: JobRepository, id: JobId, error: string, now: real, queueUp: bool)
                     returns (retried: Option<real>)
      modifies repo, queue
      ensures match FailTxn(old(repo.rows), id, error, retryBase, now)
              case Ok((rows', None)) =>
                repo.rows == rows' && queue.Value() == old(queue.Value()) && retried == None
              case Ok((rows', Some(delay))) =>
                if queueUp
                then repo.rows == rows' && queue.Value() == Enqueued(old(queue.Value()), id, delay, now) &&
                    retried == Some(delay)
                else repo.rows == old(repo.rows) && queue.Value() == old(queue.Value()) && retried == None
              case _ => repo.rows == old(repo.rows) && queue.Value() == old(queue.Value()) && retried == None
      ensures retried == None ==> queue.Value() == old(queue.Value())
      ensures (id !in old(repo.rows) || old(repo.rows)[id].state in {COMPLETED, CANCELLED}) ==>
                retried == None && repo.rows == old(repo.rows)
      ensures id in old(repo.rows) && old(repo.rows)[id].state != COMPLETED && old(repo.rows)[id].state != CANCELLED ==>
                var j := old(repo.rows)[id];
                if j.retryCount >= j.maxRetries
                then
                  && retried == None
                  && repo.rows == old(repo.rows)[id :=
                     j.(state := FAILED, error := Some(error), completedAt := Some(now))]
                else if !queueUp then retried == None && repo.rows == old(repo.rows)
                else
                  && retried == Some(Backoff(retryBase, j.retryCount + 1))
                  && repo.rows == old(repo.rows)[id :=
                     j.(state := PENDING, retryCount := j.retryCount + 1, error := None,
                                                          completedAt := Some(now))]
                  && (if retried.value > 0.0
                      then queue.ready == old(queue.ready) &&
                          queue.delayed == old(queue.delayed) + [Timer(now + retried.value, id)]
                      else queue.ready == old(queue.ready) + [id] && queue.delayed == old(queue.delayed))
    {
      var before := repo.rows;
      if id !in repo.rows { return None; }
      var r := repo.Move(id, FAILED, None, Some(error), None, now);
      if !r.Ok? { return None; }
      if repo.rows[id].retryCount < repo.rows[id].maxRetries {
        r := repo.Move(id, PENDING, None, None, None, now);
        var delay := Backoff(retryBase, repo.rows[id].retryCount);
        if !queueUp {
          repo.rows := before;
          return None;
        }
        queue.Enqueue(id, delay, now);
        return Some(delay);
      }
      return None;
    }

    method Cancel(repo: JobRepository, id: JobId, now: real) returns (cancelled: bool)
      modifies repo
      ensures (repo.rows, cancelled) == CancelTxn(old(repo.rows), id, now)
      ensures cancelled <==> id in old(repo.rows) && !Over(old(repo.rows)[id].state)
      ensures repo.rows == if cancelled
                           then old(repo.rows)[id := old(repo.rows)[id].(state := CANCELLED, completedAt := Some(now))]
                           else old(repo.rows)
    {
      if id !in repo.rows || repo.rows[id].state.Terminal() { return false; }
      var r := repo.Move(id, CANCELLED, None, None, None, now);
      return r.Ok?;
    }
  }
}
