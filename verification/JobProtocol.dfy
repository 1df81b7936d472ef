/** Submitters, cancellers and N workers over one job table and one queue, every
    interleaving of their transactions.  A lost enqueue, or the death of the process that
    holds a job, strands the job: `stranded` collects those ids. */
module JobProtocol {
  import opened Options
  import opened JobQueue
  import opened Jobs

  /** What a worker holds: nothing, an id it took off the queue, or a job whose handler runs. */
  datatype Phase = Idle | Picked(id: JobId) | Busy(id: JobId)

  /** History kept beside the state, for one job: handler starts, times it left the queue,
      and the total backoff it was given. */
  datatype Tally = Tally(starts: nat, dequeues: nat, waited: real)

  datatype System = System(now: real, rows: Rows, queue: Queue, submitting: set<JobId>, workers: seq<Phase>,
                           stranded: set<JobId>, tallies: map<JobId, Tally>, taken: nat, work: nat)

  datatype Config = Config(handlers: set<string>, retryBase: real)

  datatype Event =
    | Submit(id: JobId, kind: string, maxRetries: int)
    | EnqueueDone(id: JobId)
    | EnqueueRaised(id: JobId)
    | SubmitterDied(id: JobId)
    | Take(worker: nat)
    | Begin(worker: nat)
    | Progress(worker: nat, percent: int)
    | Succeed(worker: nat, summary: string)
    | Fail(worker: nat, error: string, queueUp: bool)
    | WorkerDied(worker: nat)
    | Cancel(id: JobId)
    | Tick(to: real)

  function Initial(workers: nat): System {
    System(0.0, map[], EMPTY, {}, seq(workers, _ => Idle), {}, map[], 0, 0)
  }

  predicate Enabled(s: System, e: Event) {
    match e
    case Submit(id, _, _) => id !in s.rows
    case EnqueueDone(id) => id in s.submitting
    case EnqueueRaised(id) => id in s.submitting
    case SubmitterDied(id) => id in s.submitting
    case Take(w) => w < |s.workers| && s.workers[w] == Idle
    case Begin(w) => w < |s.workers| && s.workers[w].Picked?
    case Progress(w, _) => w < |s.workers| && s.workers[w].Busy?
    case Succeed(w, _) => w < |s.workers| && s.workers[w].Busy?
    case Fail(w, _, _) => w < |s.workers| && s.workers[w].Busy?
    case WorkerDied(w) => w < |s.workers| && s.workers[w] != Idle
    case Cancel(_) => true
    case Tick(to) => s.now <= to
  }

  function Committed(rows: Rows, r: Result<Rows>): Rows { if r.Ok? then r.value else rows }

  function Of(t: map<JobId, Tally>, id: JobId): Tally { if id in t then t[id] else Tally(0, 0, 0.0) }

  /** The state after an event.  Every event is one transaction, or one locked section of the queue. */
  function After(c: Config, s: System, e: Event): System
    requires Enabled(s, e)
  {
    match e
    case Submit(id, kind, maxRetries) =>
      s.(rows := s.rows[id := NewJob(kind, maxRetries)], submitting := s.submitting + {id})
    case EnqueueDone(id) =>
      s.(queue := Enqueued(s.queue, id, 0.0, s.now), submitting := s.submitting - {id})
    case EnqueueRaised(id) =>
      s.(rows := Committed(s.rows, SubmitFailedTxn(s.rows, id, s.now)), submitting := s.submitting - {id})
    case SubmitterDied(id) =>
      s.(submitting := s.submitting - {id}, stranded := s.stranded + {id})
    case Take(w) =>
      var (q, taken) := Polled(s.queue, s.now);
      if taken == None then s.(queue := q)
      else
        var t := Of(s.tallies, taken.value);
        s.(queue := q, workers := s.workers[w := Picked(taken.value)], taken := s.taken + 1, work := s.work + 1,
           tallies := s.tallies[taken.value := t.(dequeues := t.dequeues + 1)])
    case Begin(w) =>
      var id := s.workers[w].id;
      var (rows, started) := BeginTxn(s.rows, id, c.handlers, s.now);
      var t := Of(s.tallies, id);
      s.(rows := rows, workers := s.workers[w := if started then Busy(id) else Idle], work := s.work + 1,
         tallies := if started then s.tallies[id := t.(starts := t.starts + 1)] else s.tallies)
    case Progress(w, percent) =>
      s.(rows := Committed(s.rows, ProgressTxn(s.rows, s.workers[w].id, percent, s.now)))
    case Succeed(w, summary) =>
      s.(rows := Committed(s.rows, FinishTxn(s.rows, s.workers[w].id, summary, s.now)),
         workers := s.workers[w := Idle], work := s.work + 1)
    case Fail(w, error, queueUp) =>
      var id := s.workers[w].id;
      var idle := s.(workers := s.workers[w := Idle], work := s.work + 1);
      var r := FailTxn(s.rows, id, error, c.retryBase, s.now);
      if !r.Ok? then idle
      else if r.value.1 == None then idle.(rows := r.value.0)
      else if !queueUp then idle.(stranded := s.stranded + {id})
      else
        var delay, t := r.value.1.value, Of(s.tallies, id);
        idle.(rows := r.value.0, queue := Enqueued(s.queue, id, delay, s.now),
              tallies := s.tallies[id := t.(waited := t.waited + delay)])
    case WorkerDied(w) =>
      s.(workers := s.workers[w := Idle], stranded := s.stranded + {s.workers[w].id}, work := s.work + 1)
    case Cancel(id) =>
      s.(rows := CancelTxn(s.rows, id, s.now).0)
    case Tick(to) =>
      s.(now := to)
  }

  // ----- Who has a job -----

  function Count<T(==)>(s: seq<T>, x: T): nat {
    if s == [] then 0 else Count(s[..|s| - 1], x) + if s[|s| - 1] == x then 1 else 0
  }

  function TimerCount(ts: seq<Timer>, id: JobId): nat {
    if ts == [] then 0 else TimerCount(ts[..|ts| - 1], id) + if ts[|ts| - 1].id == id then 1 else 0
  }

  /** How many queue slots hold the id, ready or delayed. */
  function Queued(q: Queue, id: JobId): nat { Count(q.ready, id) + TimerCount(q.delayed, id) }

  /** How many places of each kind have the id: a submit window, queue slots, workers that
      have not begun it, workers running its handler; and whether it is stranded. */
  datatype Places = Places(submitting: nat, queued: nat, picked: nat, busy: nat, stranded: nat) {
    function Custodians(): nat { submitting + queued + picked + busy }
  }

  function PlacesOf(s: System, id: JobId): Places {
    Places(if id in s.submitting then 1 else 0, Queued(s.queue, id), Count(s.workers, Picked(id)),
        Count(s.workers, Busy(id)),
           if id in s.stranded then 1 else 0)
  }

  const NOWHERE := Places(0, 0, 0, 0, 0)

  function Bound(maxRetries: int): nat { if maxRetries < 0 then 0 else maxRetries }

  /** The sum of the first `n` backoff delays. */
  function TotalBackoff(base: real, n: nat): real {
    if n == 0 then 0.0 else TotalBackoff(base, n - 1) + Backoff(base, n)
  }

  /** The invariant of one job: its row, its places and its history agree. */
  ghost predicate JobOk(c: Config, j: Job, t: Tally, p: Places) {
    && p.Custodians() + p.stranded <= 1
    && (!j.state.Terminal() ==> p.Custodians() + p.stranded == 1)
    && (p.submitting + p.queued + p.picked > 0 ==> j.state == PENDING || j.state == CANCELLED)
    && (p.busy > 0 ==> j.state == RUNNING || j.state == CANCELLED)
    && j.retryCount <= Bound(j.maxRetries)
    && t.starts <= j.retryCount + 1
    && (j.state == PENDING ==> t.starts == j.retryCount)
    && (j.state == RUNNING || j.state == COMPLETED ==> t.starts == j.retryCount + 1)
    && t.dequeues <= j.retryCount + 1
    && (p.submitting + p.queued > 0 ==> t.dequeues <= j.retryCount)
    && t.waited == TotalBackoff(c.retryBase, j.retryCount)
  }

  ghost predicate Known(c: Config, s: System, id: JobId) {
    if id in s.rows then JobOk(c, s.rows[id], Of(s.tallies, id), PlacesOf(s, id))
    else PlacesOf(s, id) == NOWHERE && Of(s.tallies, id) == Tally(0, 0, 0.0)
  }

  ghost predicate Inv(c: Config, s: System) {
    forall id :: Known(c, s, id)
  }

  // ----- How events move ids -----

  function One(b: bool): nat { if b then 1 else 0 }

  lemma CountUpdate<T>(s: seq<T>, i: nat, y: T, x: T)
    requires i < |s|
    ensures Count(s[i := y], x) + One(s[i] == x) == Count(s, x) + One(y == x)
  {
    var n := |s| - 1;
    if i < n {
      CountUpdate(s[..n], i, y, x);
      assert s[i := y][..n] == s[..n][i := y];
    } else {
      assert s[i := y][..n] == s[..n];
    }
  }

  lemma CountConcat<T>(s: seq<T>, t: seq<T>, x: T)
    ensures Count(s + t, x) == Count(s, x) + Count(t, x)
  {
    if t == [] {
      assert s + t == s;
    } else {
      CountConcat(s, t[..|t| - 1], x);
      assert (s + t)[..|s + t| - 1] == s + t[..|t| - 1];
    }
  }

  lemma PromoteCount(ts: seq<Timer>, now: real, id: JobId)
    ensures Count(DueIds(ts, now), id) + TimerCount(NotDue(ts, now), id) == TimerCount(ts, id)
  {
    if ts != [] { PromoteCount(ts[..|ts| - 1], now, id); }
  }

  lemma PollCount(q: Queue, now: real, id: JobId)
    ensures var (q', taken) := Polled(q, now); Queued(q', id) + One(taken == Some(id)) == Queued(q, id)
  {
    PromoteCount(q.delayed, now, id);
    var p := Promoted(q, now);
    CountConcat(q.ready, DueIds(q.delayed, now), id);
    if p.ready != [] {
      CountConcat(p.ready[..1], p.ready[1..], id);
      assert p.ready == p.ready[..1] + p.ready[1..];
    }
  }

  lemma EnqueueCount(q: Queue, x: JobId, delay: real, now: real, id: JobId)
    ensures Queued(Enqueued(q, x, delay, now), id) == Queued(q, id) + One(x == id)
  {
  }

  /** The id an event is about, once it is known what a poll would take. */
  function Subject(s: System, e: Event): Option<JobId>
    requires Enabled(s, e)
  {
    match e
    case Submit(id, _, _) => Some(id)
    case EnqueueDone(id) => Some(id)
    case EnqueueRaised(id) => Some(id)
    case SubmitterDied(id) => Some(id)
    case Take(_) => Polled(s.queue, s.now).1
    case Begin(w) => Some(s.workers[w].id)
    case Progress(w, _) => Some(s.workers[w].id)
    case Succeed(w, _) => Some(s.workers[w].id)
    case Fail(w, _, _) => Some(s.workers[w].id)
    case WorkerDied(w) => Some(s.workers[w].id)
    case Cancel(id) => Some(id)
    case Tick(_) => None
  }

  /** How an event moves its own job between places. */
  function Shifted(c: Config, s: System, e: Event, p: Places): Places
    requires Enabled(s, e)
  {
    match e
    case Submit(_, _, _) => p.(submitting := 1)
    case EnqueueDone(_) => p.(submitting := 0, queued := p.queued + 1)
    case EnqueueRaised(_) => p.(submitting := 0)
    case SubmitterDied(_) => p.(submitting := 0, stranded := 1)
    case Take(_) => p.(queued := if p.queued > 0 then p.queued - 1 else 0, picked := p.picked + 1)
    case Begin(w) =>
      var started := BeginTxn(s.rows, s.workers[w].id, c.handlers, s.now).1;
      p.(picked := if p.picked > 0 then p.picked - 1 else 0, busy := if started then p.busy + 1 else p.busy)
    case Progress(_, _) => p
    case Succeed(_, _) => p.(busy := if p.busy > 0 then p.busy - 1 else 0)
    case Fail(w, error, queueUp) =>
      var r := FailTxn(s.rows, s.workers[w].id, error, c.retryBase, s.now);
      var freed := p.(busy := if p.busy > 0 then p.busy - 1 else 0);
      if !r.Ok? || r.value.1 == None then freed
      else if queueUp then freed.(queued := p.queued + 1)
      else freed.(stranded := 1)
    case WorkerDied(w) =>
      if s.workers[w].Picked? then p.(picked := if p.picked > 0 then p.picked - 1 else 0, stranded := 1)
      else p.(busy := if p.busy > 0 then p.busy - 1 else 0, stranded := 1)
    case Cancel(_) => p
    case Tick(_) => p
  }

  lemma {:induction false} PhaseCount(ws: seq<Phase>, w: nat, p: Phase, id: JobId)
    requires w < |ws|
    ensures Count(ws[w := p], Picked(id)) + One(ws[w] == Picked(id)) == Count(ws, Picked(id)) + One(p == Picked(id))
    ensures Count(ws[w := p], Busy(id)) + One(ws[w] == Busy(id)) == Count(ws, Busy(id)) + One(p == Busy(id))
  {
    CountUpdate(ws, w, p, Picked(id));
    CountUpdate(ws, w, p, Busy(id));
  }

  lemma {:induction false} PlacesAfterFail(c: Config, s: System, e: Event, id: JobId)
    requires Enabled(s, e) && e.Fail?
    ensures PlacesOf(After(c, s, e), id) ==
            if Subject(s, e) == Some(id) then Shifted(c, s, e, PlacesOf(s, id)) else PlacesOf(s, id)
  {
    hide Count, Queued, Enqueued, FailTxn;
    PhaseCount(s.workers, e.worker, Idle, id);
    var r := FailTxn(s.rows, s.workers[e.worker].id, e.error, c.retryBase, s.now);
    if r.Ok? && r.value.1.Some? { EnqueueCount(s.queue, s.workers[e.worker].id, r.value.1.value, s.now, id); }
  }

  /** An event moves its own job as `Shifted` says, and no other. */
  lemma {:induction false} PlacesAfter(c: Config, s: System, e: Event, id: JobId)
    requires Enabled(s, e)
    ensures PlacesOf(After(c, s, e), id) ==
            if Subject(s, e) == Some(id) then Shifted(c, s, e, PlacesOf(s, id)) else PlacesOf(s, id)
  {
    hide Count, Queued, Polled, Enqueued, BeginTxn, FailTxn, Transition;
    match e
    case Take(w) =>
      PollCount(s.queue, s.now, id);
      var taken := Polled(s.queue, s.now).1;
      if taken.Some? { PhaseCount(s.workers, w, Picked(taken.value), id); }
    case EnqueueDone(x) => EnqueueCount(s.queue, x, 0.0, s.now, id);
    case Begin(w) =>
      PhaseCount(s.workers, w, Busy(s.workers[w].id), id);
      PhaseCount(s.workers, w, Idle, id);
    case Succeed(w, _) => PhaseCount(s.workers, w, Idle, id);
    case WorkerDied(w) => PhaseCount(s.workers, w, Idle, id);
    case Fail(_, _, _) => PlacesAfterFail(c, s, e, id);
    case _ =>
  }

  lemma {:induction false} OthersUntouched(c: Config, s: System, e: Event, id: JobId)
    requires Enabled(s, e) && Subject(s, e) != Some(id)
    ensures id in After(c, s, e).rows <==> id in s.rows
    ensures id in s.rows ==> After(c, s, e).rows[id] == s.rows[id]
    ensures Of(After(c, s, e).tallies, id) == Of(s.tallies, id)
  {
    hide Moved, Polled, Enqueued;
  }

  lemma CountPositive<T>(s: seq<T>, i: nat)
    requires i < |s|
    ensures Count(s, s[i]) > 0
  {
    if i < |s| - 1 { CountPositive(s[..|s| - 1], i); }
  }

  /** The subject of an event is where the event takes it from. */
  lemma {:induction false} SubjectIsThere(s: System, e: Event, id: JobId)
    requires Enabled(s, e) && Subject(s, e) == Some(id)
    ensures e.EnqueueDone? || e.EnqueueRaised? || e.SubmitterDied? ==> PlacesOf(s, id).submitting == 1
    ensures e.Take? ==> PlacesOf(s, id).queued > 0
    ensures e.Begin? ==> PlacesOf(s, id).picked > 0
    ensures e.Progress? || e.Succeed? || e.Fail? ==> PlacesOf(s, id).busy > 0
    ensures e.WorkerDied? ==>
              if s.workers[e.worker].Picked? then PlacesOf(s, id).picked > 0 else PlacesOf(s, id).busy > 0
  {
    hide Count, Queued, Polled;
    match e
    case Take(w) => PollCount(s.queue, s.now, id);
    case Begin(w) => CountPositive(s.workers, w);
    case Progress(w, _) => CountPositive(s.workers, w);
    case Succeed(w, _) => CountPositive(s.workers, w);
    case Fail(w, _, _) => CountPositive(s.workers, w);
    case WorkerDied(w) => CountPositive(s.workers, w);
    case _ =>
  }

  // ----- Every step keeps the invariant -----

  lemma BackoffAdds(base: real, n: nat)
    ensures TotalBackoff(base, n) + Backoff(base, n + 1) == TotalBackoff(base, n + 1)
    ensures TotalBackoff(base, 0) == 0.0
  {
  }

  /** The delays of a job that used `n` retries add up to `base * (2^(n+1) - 2)`. */
  lemma {:induction false} BackoffClosedForm(base: real, n: nat)
    ensures TotalBackoff(base, n) == base * (Pow2(n + 1) - 2) as real
  {
    if n > 0 {
      BackoffClosedForm(base, n - 1);
      var p := Pow2(n) as real;
      assert (Pow2(n + 1) - 2) as real == (p - 2.0) + p;
      Distribute(base, p - 2.0, p);
    }
  }

  lemma Distribute(a: real, x: real, y: real)
    ensures a * (x + y) == a * x + a * y
  {
  }

  /** What one transaction makes of the job it is about. */
  ghost predicate SameRetries(rows: Rows, rows': Rows, id: JobId, state: JobState)
    requires id in rows
  {
    id in rows' && rows'[id].state == state
    && rows'[id].retryCount == rows[id].retryCount && rows'[id].maxRetries == rows[id].maxRetries
  }

  lemma {:induction false} FailOutcome(rows: Rows, id: JobId, error: string, base: real, now: real)
    requires id in rows
    ensures var r := FailTxn(rows, id, error, base, now); var j := rows[id];
            && (j.state == CANCELLED ==> !r.Ok?)
            && (j.state == RUNNING && j.retryCount >= j.maxRetries ==>
                  r.Ok? && r.value.1 == None && SameRetries(rows, r.value.0, id, FAILED))
            && (j.state == RUNNING && j.retryCount < j.maxRetries ==>
                  r.Ok? && r.value.1 == Some(Backoff(base, j.retryCount + 1))
                  && SameRetries(rows[id := j.(retryCount := j.retryCount + 1)], r.value.0, id, PENDING))
  {
  }

  lemma {:induction false} BeginOutcome(rows: Rows, id: JobId, handlers: set<string>, now: real)
    requires id in rows && (rows[id].state == PENDING || rows[id].state == CANCELLED)
    ensures var (rows', started) := BeginTxn(rows, id, handlers, now);
            && (started <==> rows[id].state == PENDING && rows[id].kind in handlers)
            && SameRetries(rows, rows', id,
                           if started then RUNNING else if rows[id].state == PENDING then FAILED else CANCELLED)
  {
  }

  /** The other transactions leave a cancelled job as it is, and the retry count always. */
  lemma {:induction false} OtherOutcomes(rows: Rows, id: JobId, percent: int, summary: string, now: real)
    requires id in rows
    ensures var j := rows[id];
            && (j.state == RUNNING || j.state == CANCELLED ==>
                  && SameRetries(rows, Committed(rows, ProgressTxn(rows, id, percent, now)), id, j.state)
                  && SameRetries(rows, Committed(rows, FinishTxn(rows, id, summary, now)), id,
                                 if j.state == RUNNING then COMPLETED else CANCELLED))
            && (j.state == PENDING || j.state == CANCELLED ==>
                  SameRetries(rows, Committed(rows, SubmitFailedTxn(rows, id, now)), id,
                              if j.state == PENDING then FAILED else CANCELLED))
            && SameRetries(rows, CancelTxn(rows, id, now).0, id, if j.state.Terminal() then j.state else CANCELLED)
  {
  }

  /** A failed handler: nothing for a cancelled job, FAILED without retries left, and
      otherwise PENDING and back in the queue with one more retry and its backoff. */
  lemma {:induction false} FailAfter(c: Config, s: System, e: Event, id: JobId)
    requires Enabled(s, e) && e.Fail? && Subject(s, e) == Some(id) && id in s.rows
    ensures var j, s', t := s.rows[id], After(c, s, e), Of(s.tallies, id);
            var p := Shifted(c, s, e, PlacesOf(s, id));
            var freed := PlacesOf(s, id).(busy := if PlacesOf(s, id).busy > 0 then PlacesOf(s, id).busy - 1 else 0);
            && (j.state == CANCELLED ==> s'.rows == s.rows && Of(s'.tallies, id) == t && p == freed)
            && (j.state == RUNNING && j.retryCount >= j.maxRetries ==>
                  SameRetries(s.rows, s'.rows, id, FAILED) && Of(s'.tallies, id) == t && p == freed)
            && (j.state == RUNNING && j.retryCount < j.maxRetries && e.queueUp ==>
                  && SameRetries(s.rows[id := j.(retryCount := j.retryCount + 1)], s'.rows, id, PENDING)
                  && Of(s'.tallies, id) == t.(waited := t.waited + Backoff(c.retryBase, j.retryCount + 1))
                  && p == freed.(queued := freed.queued + 1))
            && (j.state == RUNNING && j.retryCount < j.maxRetries && !e.queueUp ==>
                  s'.rows == s.rows && Of(s'.tallies, id) == t && p == freed.(stranded := 1))
  {
    hide PlacesOf, Backoff, FailTxn, Enqueued;
    FailOutcome(s.rows, id, e.error, c.retryBase, s.now);
  }

  lemma {:induction false} FailKeepsJob(c: Config, s: System, e: Event, id: JobId)
    requires Enabled(s, e) && e.Fail? && Subject(s, e) == Some(id) && id in s.rows
    requires JobOk(c, s.rows[id], Of(s.tallies, id), PlacesOf(s, id))
    ensures Known(c, After(c, s, e), id)
  {
    hide PlacesOf, Backoff, TotalBackoff, After, Shifted;
    PlacesAfter(c, s, e, id);
    SubjectIsThere(s, e, id);
    FailAfter(c, s, e, id);
    if s.rows[id].state == RUNNING && s.rows[id].retryCount < s.rows[id].maxRetries {
      BackoffAdds(c.retryBase, s.rows[id].retryCount);
    }
  }

  lemma {:induction false} BeginKeepsJob(c: Config, s: System, e: Event, id: JobId)
    requires Enabled(s, e) && e.Begin? && Subject(s, e) == Some(id) && id in s.rows
    requires JobOk(c, s.rows[id], Of(s.tallies, id), PlacesOf(s, id))
    ensures Known(c, After(c, s, e), id)
  {
    PlacesAfter(c, s, e, id);
    SubjectIsThere(s, e, id);
    hide PlacesOf, TotalBackoff, BeginTxn;
    BeginOutcome(s.rows, id, c.handlers, s.now);
  }

  lemma {:induction false} SubjectKept(c: Config, s: System, e: Event, id: JobId)
    requires Enabled(s, e) && Subject(s, e) == Some(id) && id in s.rows
    requires JobOk(c, s.rows[id], Of(s.tallies, id), PlacesOf(s, id))
    ensures Known(c, After(c, s, e), id)
  {
    if e.Fail? {
      FailKeepsJob(c, s, e, id);
    } else if e.Begin? {
      BeginKeepsJob(c, s, e, id);
    } else {
      PlacesAfter(c, s, e, id);
      SubjectIsThere(s, e, id);
      hide PlacesOf, TotalBackoff, Polled, Enqueued, Committed, CancelTxn;
      OtherOutcomes(s.rows, id, if e.Progress? then e.percent else 0, if e.Succeed? then e.summary else "", s.now);
    }
  }

  lemma {:induction false} SubmitMakesJob(c: Config, s: System, e: Event, id: JobId)
    requires Enabled(s, e) && e.Submit? && e.id == id
    requires PlacesOf(s, id) == NOWHERE && Of(s.tallies, id) == Tally(0, 0, 0.0)
    ensures Known(c, After(c, s, e), id)
  {
    PlacesAfter(c, s, e, id);
    BackoffAdds(c.retryBase, 0);
    hide PlacesOf, TotalBackoff;
  }

  lemma {:induction false} KnownKept(c: Config, s: System, e: Event, id: JobId)
    requires Enabled(s, e) && Known(c, s, id)
    ensures Known(c, After(c, s, e), id)
  {
    hide JobOk, PlacesOf;
    if Subject(s, e) != Some(id) {
      OthersUntouched(c, s, e, id);
      PlacesAfter(c, s, e, id);
    } else if id in s.rows {
      SubjectKept(c, s, e, id);
    } else if e.Submit? {
      SubmitMakesJob(c, s, e, id);
    } else {
      SubjectIsThere(s, e, id);
      PlacesAfter(c, s, e, id);
    }
  }

  lemma {:induction false} StepKeepsInv(c: Config, s: System, e: Event)
    requires Inv(c, s) && Enabled(s, e)
    ensures Inv(c, After(c, s, e))
  {
    hide Known, After;
    forall id ensures Known(c, After(c, s, e), id) {
      assert Known(c, s, id);
      KnownKept(c, s, e, id);
    }
  }

  // ----- Whole runs -----

  ghost predicate Run(c: Config, workers: nat, states: seq<System>, events: seq<Event>) {
    && |states| == |events| + 1 && states[0] == Initial(workers)
    && forall i :: 0 <= i < |events| ==>
         (Enabled(states[i], events[i]) && states[i + 1] == After(c, states[i], events[i]))
  }

  lemma InitialInv(c: Config, workers: nat)
    ensures Inv(c, Initial(workers))
  {
    forall id ensures Known(c, Initial(workers), id) {
      IdleCounts(workers, id);
    }
  }

  lemma IdleCounts(n: nat, id: JobId)
    ensures Count(seq(n, _ => Idle), Picked(id)) == 0 && Count(seq(n, _ => Idle), Busy(id)) == 0
  {
    if n > 0 {
      IdleCounts(n - 1, id);
      assert seq(n, _ => Idle)[..n - 1] == seq(n - 1, _ => Idle);
    }
  }

  lemma {:induction false} RunKeepsInv(c: Config, workers: nat, states: seq<System>, events: seq<Event>, i: nat)
    requires Run(c, workers, states, events) && i < |states|
    ensures Inv(c, states[i])
  {
    hide Inv, After, Initial;
    if i == 0 {
      InitialInv(c, workers);
    } else {
      RunKeepsInv(c, workers, states, events, i - 1);
      StepKeepsInv(c, states[i - 1], events[i - 1]);
    }
  }

  /** Custody: in every reachable state a job has at most one custodian, and a job that is
      PENDING or RUNNING and not stranded has exactly one: PENDING in a submit window, in
      one queue slot or with one worker that has not begun it; RUNNING with one worker. */
  lemma {:induction false} Custody(c: Config, workers: nat, states: seq<System>, events: seq<Event>, i: nat, id: JobId)
    requires Run(c, workers, states, events) && i < |states|
    ensures var s := states[i]; var p := PlacesOf(s, id);
            && p.Custodians() <= 1
            && (id in s.rows && s.rows[id].state == PENDING && id !in s.stranded ==>
                  p.submitting + p.queued + p.picked == 1 && p.busy == 0)
            && (id in s.rows && s.rows[id].state == RUNNING && id !in s.stranded ==>
                  p.submitting + p.queued + p.picked == 0 && p.busy == 1)
  {
    RunKeepsInv(c, workers, states, events, i);
    assert Known(c, states[i], id);
    hide Queued, Count;
  }

  /** Nothing in the queue and nothing in flight. */
  predicate Drained(s: System) {
    s.queue == EMPTY && s.submitting == {} && forall w :: 0 <= w < |s.workers| ==> s.workers[w] == Idle
  }

  lemma AllIdle(ws: seq<Phase>, id: JobId)
    requires forall w :: 0 <= w < |ws| ==> ws[w] == Idle
    ensures Count(ws, Picked(id)) == 0 && Count(ws, Busy(id)) == 0
  {
    if ws != [] { AllIdle(ws[..|ws| - 1], id); }
  }

  /** When the system has drained, a job not in a terminal state is a stranded one; if no
      process died holding a job and no retry lost its enqueue, every job is terminal. */
  lemma {:induction false} DrainedIsSettled(c: Config, workers: nat, states: seq<System>, events: seq<Event>, i: nat)
    requires Run(c, workers, states, events) && i < |states| && Drained(states[i])
    ensures forall id :: id in states[i].rows && !states[i].rows[id].state.Terminal() ==> id in states[i].stranded
    ensures Lossless(events) ==> forall id :: id in states[i].rows ==> states[i].rows[id].state.Terminal()
  {
    RunKeepsInv(c, workers, states, events, i);
    if Lossless(events) { NothingStranded(c, workers, states, events, i); }
    hide Run;
    forall id | id in states[i].rows && !states[i].rows[id].state.Terminal() ensures id in states[i].stranded {
      assert Known(c, states[i], id);
      AllIdle(states[i].workers, id);
    }
  }

  /** No process dies holding a job, and no retry loses its enqueue. */
  ghost predicate Lossless(events: seq<Event>) {
    forall e :: e in events ==> !e.SubmitterDied? && !e.WorkerDied? && (e.Fail? ==> e.queueUp)
  }

  lemma {:induction false} NothingStranded(c: Config, workers: nat, states: seq<System>, events: seq<Event>, i: nat)
    requires Run(c, workers, states, events) && Lossless(events) && i < |states|
    ensures states[i].stranded == {}
  {
    if i > 0 {
      NothingStranded(c, workers, states, events, i - 1);
      assert events[i - 1] in events;
      hide FailTxn, BeginTxn, Polled;
    }
  }

  // ----- Terminal states -----

  lemma {:induction false} FailOnCancelled(rows: Rows, id: JobId, error: string, base: real, now: real)
    requires id in rows && rows[id].state == CANCELLED
    ensures !FailTxn(rows, id, error, base, now).Ok?
  {
  }

  /** A terminal row never changes, and a terminal job only ever gives up custodians. */
  lemma {:induction false} TerminalStays(c: Config, s: System, e: Event, id: JobId)
    requires Enabled(s, e) && Known(c, s, id) && id in s.rows && s.rows[id].state.Terminal()
    ensures id in After(c, s, e).rows && After(c, s, e).rows[id] == s.rows[id]
    ensures var p, p' := PlacesOf(s, id), PlacesOf(After(c, s, e), id);
            p'.Custodians() <= p.Custodians() && (p.submitting + p.queued == 0 ==> p'.submitting + p'.queued == 0)
  {
    if Subject(s, e) != Some(id) {
      OthersUntouched(c, s, e, id);
      PlacesAfter(c, s, e, id);
    } else {
      PlacesAfter(c, s, e, id);
      SubjectIsThere(s, e, id);
      hide PlacesOf, Polled, Enqueued, TotalBackoff;
      if e.Fail? {
        FailOnCancelled(s.rows, id, e.error, c.retryBase, s.now);
        hide FailTxn;
      }
    }
  }

  /** COMPLETED, FAILED and CANCELLED are absorbing over every run: the row never changes
      again, and a job outside the queue is never put back. */
  lemma {:induction false} TerminalIsAbsorbing(c: Config, workers: nat, states: seq<System>, events: seq<Event>,
                                               i: nat, j: nat, id: JobId)
    requires Run(c, workers, states, events) && i <= j < |states|
    requires id in states[i].rows && states[i].rows[id].state.Terminal()
    ensures id in states[j].rows && states[j].rows[id] == states[i].rows[id]
    ensures var p, p' := PlacesOf(states[i], id), PlacesOf(states[j], id);
            p'.Custodians() <= p.Custodians() && (p.submitting + p.queued == 0 ==> p'.submitting + p'.queued == 0)
    decreases j
  {
    hide After, PlacesOf, Inv;
    if i < j {
      TerminalIsAbsorbing(c, workers, states, events, i, j - 1, id);
      RunKeepsInv(c, workers, states, events, j - 1);
      KnownAt(c, states[j - 1], id);
      TerminalStays(c, states[j - 1], events[j - 1], id);
    }
  }

  lemma KnownAt(c: Config, s: System, id: JobId)
    requires Inv(c, s)
    ensures Known(c, s, id)
  {
  }

  /** A stranded job is out of reach: only a cancellation changes its row. */
  lemma {:induction false} StrandedStays(c: Config, s: System, e: Event, id: JobId)
    requires Enabled(s, e) && Known(c, s, id) && id in s.stranded && e != Cancel(id)
    ensures id in s.rows && id in After(c, s, e).rows && After(c, s, e).rows[id] == s.rows[id]
    ensures PlacesOf(After(c, s, e), id) == PlacesOf(s, id)
  {
    if Subject(s, e) == Some(id) { SubjectIsThere(s, e, id); }
    OthersUntouched(c, s, e, id);
    PlacesAfter(c, s, e, id);
    hide After, Subject;
  }

  // ----- Jobs left behind -----

  /** An event after which nobody has the job: its submitter or its worker dies, or its handler
      fails, a retry is left, and the enqueue of the retry raises. */
  predicate Loses(s: System, e: Event, id: JobId) {
    match e
    case SubmitterDied(x) => x == id
    case WorkerDied(w) => w < |s.workers| && s.workers[w] != Idle && s.workers[w].id == id
    case Fail(w, _, queueUp) =>
      && w < |s.workers| && s.workers[w] == Busy(id) && !queueUp
      && id in s.rows && s.rows[id].state == RUNNING && s.rows[id].retryCount < s.rows[id].maxRetries
    case _ => false
  }

  /** A loss strands the job and leaves its row; nothing else strands it. */
  lemma {:induction false} LossStrands(c: Config, s: System, e: Event, id: JobId)
    requires Enabled(s, e) && Inv(c, s) && id in s.rows && !s.rows[id].state.Terminal()
    ensures id in After(c, s, e).stranded <==> id in s.stranded || Loses(s, e, id)
    ensures Loses(s, e, id) ==> After(c, s, e).rows == s.rows
  {
    KnownAt(c, s, id);
    hide Inv, Polled, Enqueued, BeginTxn, ProgressTxn, FinishTxn, CancelTxn, TotalBackoff, Queued;
    if e.Fail? && s.workers[e.worker].id == id {
      FailOutcome(s.rows, id, e.error, c.retryBase, s.now);
      SubjectIsThere(s, e, id);
      hide FailTxn, Count;
    } else if e.Fail? {
      hide FailTxn, Count;
    }
  }

  /** The job was lost in step `k` and not cancelled since. */
  ghost predicate LeftBehind(states: seq<System>, events: seq<Event>, k: nat, i: nat, id: JobId)
    requires |states| == |events| + 1 && i < |states|
  {
    && k < i && id in states[k].rows && !states[k].rows[id].state.Terminal() && Loses(states[k], events[k], id)
    && forall j :: k < j < i ==> events[j] != Cancel(id)
  }

  lemma {:induction false} StrandedOn(c: Config, s: System, e: Event, id: JobId)
    requires Enabled(s, e) && id in s.stranded
    ensures id in After(c, s, e).stranded
  {
    hide Polled, Enqueued, BeginTxn, ProgressTxn, FinishTxn, FailTxn, CancelTxn;
  }

  lemma StrandedHasRow(c: Config, s: System, id: JobId)
    requires Inv(c, s) && id in s.stranded
    ensures id in s.rows
  {
    KnownAt(c, s, id);
  }

  /** A stranded job stays where it is, over every run without a cancellation of it. */
  lemma {:induction false} StrandedForGood(c: Config, workers: nat, states: seq<System>, events: seq<Event>,
                                           k: nat, i: nat, id: JobId)
    requires Run(c, workers, states, events) && k <= i < |states| && id in states[k].stranded
    requires forall j :: k <= j < i ==> events[j] != Cancel(id)
    ensures id in states[k].rows && id in states[i].rows && states[i].rows[id] == states[k].rows[id]
    ensures PlacesOf(states[i], id) == PlacesOf(states[k], id) && id in states[i].stranded
    decreases i
  {
    hide After, Inv, PlacesOf, Known, Enabled;
    RunKeepsInv(c, workers, states, events, k);
    StrandedHasRow(c, states[k], id);
    if k < i {
      StrandedForGood(c, workers, states, events, k, i - 1, id);
      RunKeepsInv(c, workers, states, events, i - 1);
      KnownAt(c, states[i - 1], id);
      StrandedStays(c, states[i - 1], events[i - 1], id);
      StrandedOn(c, states[i - 1], events[i - 1], id);
    }
  }

  /** A job stranded and not terminal was left behind in some step. */
  lemma {:induction false} StrandedSince(c: Config, workers: nat, states: seq<System>, events: seq<Event>,
                                         i: nat, id: JobId) returns (k: nat)
    requires Run(c, workers, states, events) && i < |states|
    requires id in states[i].rows && !states[i].rows[id].state.Terminal() && id in states[i].stranded
    ensures LeftBehind(states, events, k, i, id)
    decreases i
  {
    hide After, Inv, Known;
    assert i > 0;
    var s, e := states[i - 1], events[i - 1];
    RunKeepsInv(c, workers, states, events, i - 1);
    KnownAt(c, s, id);
    WasAlive(c, s, e, id);
    LossStrands(c, s, e, id);
    if id in s.stranded {
      k := StrandedSince(c, workers, states, events, i - 1, id);
    } else {
      k := i - 1;
    }
  }

  /** A stranded job that is not terminal after a step was there, and not terminal, before
      it, and the step did not cancel it. */
  lemma {:induction false} WasAlive(c: Config, s: System, e: Event, id: JobId)
    requires Enabled(s, e) && Known(c, s, id)
    requires id in After(c, s, e).rows && !After(c, s, e).rows[id].state.Terminal() && id in After(c, s, e).stranded
    ensures id in s.rows && !s.rows[id].state.Terminal() && e != Cancel(id)
  {
    if id in s.rows && s.rows[id].state.Terminal() { TerminalStays(c, s, e, id); }
    hide Polled, Enqueued, BeginTxn, ProgressTxn, FinishTxn, FailTxn, Count, Queued, TotalBackoff;
  }

  /** When the system has drained, a job is not in a terminal state if and only if it was left
      behind: lost before it was terminal, and not cancelled since. */
  lemma {:induction false} UnsettledExactly(c: Config, workers: nat, states: seq<System>, events: seq<Event>, i: nat,
                                            id: JobId)
    requires Run(c, workers, states, events) && i < |states| && Drained(states[i]) && id in states[i].rows
    ensures !states[i].rows[id].state.Terminal() <==> exists k: nat :: LeftBehind(states, events, k, i, id)
  {
    if !states[i].rows[id].state.Terminal() {
      DrainedIsSettled(c, workers, states, events, i);
      var k := StrandedSince(c, workers, states, events, i, id);
    } else if k: nat :| LeftBehind(states, events, k, i, id) {
      RunKeepsInv(c, workers, states, events, k);
      LossStrands(c, states[k], events[k], id);
      StrandedForGood(c, workers, states, events, k + 1, i, id);
    }
  }

  lemma {:induction false} Submitted(c: Config, id: JobId, kind: string) returns (s1: System, s2: System)
    ensures s1 == After(c, Initial(1), Submit(id, kind, 3)) && id in s1.submitting
    ensures s2 == After(c, s1, EnqueueDone(id))
    ensures s2.rows == map[id := NewJob(kind, 3)] && s2.queue == Queue([id], []) && s2.workers == [Idle] &&
            s2.submitting == {}
  {
    s1 := After(c, Initial(1), Submit(id, kind, 3));
    s2 := After(c, s1, EnqueueDone(id));
    assert [] + [id] == [id];
  }

  lemma {:induction false} Begun(c: Config, s: System, id: JobId, kind: string) returns (s': System)
    requires kind in c.handlers && s.rows == map[id := NewJob(kind, 3)] && s.workers == [Picked(id)]
    ensures s' == After(c, s, Begin(0)) && s'.queue == s.queue && s'.submitting == s.submitting &&
            s'.workers == [Busy(id)]
    ensures id in s'.rows && s'.rows[id].state == RUNNING && s'.rows[id].retryCount < s'.rows[id].maxRetries
  {
    s' := After(c, s, Begin(0));
  }

  lemma {:induction false} LostRetry(c: Config, s: System, id: JobId, error: string) returns (s': System)
    requires s.workers == [Busy(id)] && id in s.rows && s.rows[id].state == RUNNING
    requires s.rows[id].retryCount < s.rows[id].maxRetries
    ensures s' == After(c, s, Fail(0, error, false))
    ensures s'.rows == s.rows && s'.queue == s.queue && s'.submitting == s.submitting && s'.workers == [Idle]
  {
    s' := After(c, s, Fail(0, error, false));
    FailOutcome(s.rows, id, error, c.retryBase, s.now);
    hide FailTxn;
  }

  /** Such a run: one job, one worker, and a retry whose enqueue raises. The system has
      drained, and the job is RUNNING with nobody holding it. */
  lemma {:induction false} LostRetryRun(c: Config, id: JobId, kind: string, error: string)
    returns (states: seq<System>, events: seq<Event>)
    requires kind in c.handlers
    ensures events == [Submit(id, kind, 3), EnqueueDone(id), Take(0), Begin(0), Fail(0, error, false)]
    ensures Run(c, 1, states, events) && Drained(states[5]) && id in states[5].rows &&
            states[5].rows[id].state == RUNNING
    ensures LeftBehind(states, events, 4, 5, id)
  {
    hide After;
    events := [Submit(id, kind, 3), EnqueueDone(id), Take(0), Begin(0), Fail(0, error, false)];
    var s1, s2 := Submitted(c, id, kind);
    var s3 := Taken(c, s2, id);
    var s4 := Begun(c, s3, id, kind);
    var s5 := LostRetry(c, s4, id, error);
    states := [Initial(1), s1, s2, s3, s4, s5];
  }

  lemma {:induction false} Taken(c: Config, s: System, id: JobId) returns (s': System)
    requires s.queue == Queue([id], []) && s.workers == [Idle]
    ensures s' == After(c, s, Take(0)) && s'.queue == EMPTY && s'.workers == [Picked(id)]
    ensures s'.rows == s.rows && s'.submitting == s.submitting && s'.now == s.now
  {
    s' := After(c, s, Take(0));
    assert Polled(s.queue, s.now) == (EMPTY, Some(id)) by { assert [id] + [] == [id] && [id][1..] == []; }
  }

  // ----- Bounds -----

  /** Handler starts, retries, dequeues and total backoff of one job, over every run. */
  lemma {:induction false} AttemptsAreBounded(c: Config, workers: nat, states: seq<System>, events: seq<Event>,
                                              i: nat, id: JobId)
    requires Run(c, workers, states, events) && i < |states| && id in states[i].rows
    ensures var j, t := states[i].rows[id], Of(states[i].tallies, id);
            && t.starts <= j.retryCount + 1 <= Bound(j.maxRetries) + 1
            && t.dequeues <= j.retryCount + 1
            && t.waited == TotalBackoff(c.retryBase, j.retryCount)
  {
    RunKeepsInv(c, workers, states, events, i);
    KnownAt(c, states[i], id);
    hide After, PlacesOf, TotalBackoff;
  }

  ghost function Sum(ids: set<JobId>, f: JobId -> nat): nat {
    if ids == {} then 0 else var x :| x in ids; f(x) + Sum(ids - {x}, f)
  }

  lemma {:induction false} SumTakeOut(ids: set<JobId>, f: JobId -> nat, x: JobId)
    requires x in ids
    ensures Sum(ids, f) == f(x) + Sum(ids - {x}, f)
  {
    var y :| y in ids && Sum(ids, f) == f(y) + Sum(ids - {y}, f);
    if x != y {
      SumTakeOut(ids - {y}, f, x);
      SumTakeOut(ids - {x}, f, y);
      assert ids - {y} - {x} == ids - {x} - {y};
    }
  }

  lemma {:induction false} SumLe(ids: set<JobId>, f: JobId -> nat, g: JobId -> nat)
    requires forall x :: x in ids ==> f(x) <= g(x)
    ensures Sum(ids, f) <= Sum(ids, g)
  {
    if ids != {} {
      var x :| x in ids;
      SumTakeOut(ids, f, x);
      SumTakeOut(ids, g, x);
      SumLe(ids - {x}, f, g);
    }
  }

  lemma {:induction false} SumBump(ids: set<JobId>, f: JobId -> nat, g: JobId -> nat, x: JobId, d: nat)
    requires x in ids && g(x) == f(x) + d && forall y :: y in ids && y != x ==> g(y) == f(y)
    ensures Sum(ids, g) == Sum(ids, f) + d
  {
    SumTakeOut(ids, f, x);
    SumTakeOut(ids, g, x);
    SumLe(ids - {x}, f, g);
    SumLe(ids - {x}, g, f);
  }

  function Dequeues(s: System): JobId -> nat { id => Of(s.tallies, id).dequeues }

  /** How often a job may leave the queue. */
  function Capacity(s: System): JobId -> nat { id => if id in s.rows then Bound(s.rows[id].maxRetries) + 1 else 0 }

  /** Transactions still owed by the workers: two after a dequeue, one while a handler runs. */
  function Owed(ws: seq<Phase>): nat {
    if ws == [] then 0 else Owed(ws[..|ws| - 1]) + Owes(ws[|ws| - 1])
  }

  function Owes(p: Phase): nat { match p case Idle => 0 case Picked(_) => 2 case Busy(_) => 1 }

  lemma OwedUpdate(ws: seq<Phase>, w: nat, p: Phase)
    requires w < |ws|
    ensures Owed(ws[w := p]) + Owes(ws[w]) == Owed(ws) + Owes(p)
  {
    var n := |ws| - 1;
    if w < n {
      OwedUpdate(ws[..n], w, p);
      assert ws[w := p][..n] == ws[..n][w := p];
    } else {
      assert ws[w := p][..n] == ws[..n];
    }
  }

  lemma OwedIdle(n: nat)
    ensures Owed(seq(n, _ => Idle)) == 0
  {
    if n > 0 {
      OwedIdle(n - 1);
      assert seq(n, _ => Idle)[..n - 1] == seq(n - 1, _ => Idle);
    }
  }

  ghost predicate Accounted(s: System) {
    s.taken == Sum(s.rows.Keys, Dequeues(s)) && s.work + Owed(s.workers) <= 3 * s.taken
  }

  lemma {:induction false} WorkAccounted(c: Config, s: System, e: Event)
    requires Enabled(s, e) && s.work + Owed(s.workers) <= 3 * s.taken
    ensures After(c, s, e).work + Owed(After(c, s, e).workers) <= 3 * After(c, s, e).taken
  {
    hide Owed, Polled, BeginTxn, FailTxn, Enqueued;
    match e
    case Take(w) =>
      var taken := Polled(s.queue, s.now).1;
      if taken.Some? { OwedUpdate(s.workers, w, Picked(taken.value)); }
    case Begin(w) =>
      OwedUpdate(s.workers, w, Busy(s.workers[w].id));
      OwedUpdate(s.workers, w, Idle);
    case Succeed(w, _) => OwedUpdate(s.workers, w, Idle);
    case Fail(w, _, _) => OwedUpdate(s.workers, w, Idle);
    case WorkerDied(w) => OwedUpdate(s.workers, w, Idle);
    case _ =>
  }

  lemma {:induction false} KeysAfter(c: Config, s: System, e: Event)
    requires Enabled(s, e)
    ensures After(c, s, e).rows.Keys == if e.Submit? then s.rows.Keys + {e.id} else s.rows.Keys
  {
    hide Moved, Polled, Enqueued;
    if !e.Submit? && Subject(s, e).Some? && Subject(s, e).value in s.rows {
      assert s.rows.Keys + {Subject(s, e).value} == s.rows.Keys;
    }
  }

  lemma {:induction false} DequeuesAfter(c: Config, s: System, e: Event, id: JobId)
    requires Enabled(s, e)
    ensures var took := e.Take? && Subject(s, e) == Some(id);
            Dequeues(After(c, s, e))(id) == Dequeues(s)(id) + One(took)
    ensures After(c, s, e).taken == s.taken + One(e.Take? && Subject(s, e).Some?)
  {
    hide Polled, BeginTxn, FailTxn, Enqueued, CancelTxn, Committed;
  }

  lemma {:induction false} TakenAccounted(c: Config, s: System, e: Event)
    requires Inv(c, s) && Enabled(s, e) && s.taken == Sum(s.rows.Keys, Dequeues(s))
    ensures After(c, s, e).taken == Sum(After(c, s, e).rows.Keys, Dequeues(After(c, s, e)))
  {
    var s' := After(c, s, e);
    KeysAfter(c, s, e);
    forall id ensures Dequeues(s')(id) == Dequeues(s)(id) + One(e.Take? && Subject(s, e) == Some(id)) {
      DequeuesAfter(c, s, e, id);
    }
    DequeuesAfter(c, s, e, "");
    hide After, Inv, Dequeues, PlacesOf;
    if e.Take? && Subject(s, e).Some? {
      var id := Subject(s, e).value;
      KnownAt(c, s, id);
      SubjectIsThere(s, e, id);
      SumBump(s.rows.Keys, Dequeues(s), Dequeues(s'), id, 1);
    } else {
      SumLe(s.rows.Keys, Dequeues(s), Dequeues(s'));
      SumLe(s.rows.Keys, Dequeues(s'), Dequeues(s));
      if e.Submit? {
        FreshDequeues(c, s, e.id);
        SumTakeOut(s'.rows.Keys, Dequeues(s'), e.id);
        assert s'.rows.Keys - {e.id} == s.rows.Keys;
      }
    }
  }

  lemma FreshDequeues(c: Config, s: System, id: JobId)
    requires Inv(c, s) && id !in s.rows
    ensures Dequeues(s)(id) == 0
  {
    KnownAt(c, s, id);
  }

  lemma {:induction false} RunAccounted(c: Config, workers: nat, states: seq<System>, events: seq<Event>, i: nat)
    requires Run(c, workers, states, events) && i < |states|
    ensures Accounted(states[i])
  {
    hide After, Inv, Dequeues, Owed;
    if i == 0 {
      OwedIdle(workers);
    } else {
      RunAccounted(c, workers, states, events, i - 1);
      RunKeepsInv(c, workers, states, events, i - 1);
      TakenAccounted(c, states[i - 1], events[i - 1]);
      WorkAccounted(c, states[i - 1], events[i - 1]);
    }
  }

  /** Draining ends: over every run the queue gives out at most the sum of
      (max_retries + 1) ids, and the workers commit at most three transactions for each. */
  lemma {:induction false} DrainingEnds(c: Config, workers: nat, states: seq<System>, events: seq<Event>, i: nat)
    requires Run(c, workers, states, events) && i < |states|
    ensures states[i].taken <= Sum(states[i].rows.Keys, Capacity(states[i]))
    ensures states[i].work <= 3 * Sum(states[i].rows.Keys, Capacity(states[i]))
  {
    RunAccounted(c, workers, states, events, i);
    var s := states[i];
    forall id | id in s.rows ensures Dequeues(s)(id) <= Capacity(s)(id) {
      AttemptsAreBounded(c, workers, states, events, i, id);
    }
    hide Run;
    SumLe(s.rows.Keys, Dequeues(s), Capacity(s));
  }

  // ----- Progress -----

  /** While something is queued or in flight, some event moves it on: an enqueue, a worker's
      next transaction, or, with every worker idle, a dequeue once time has passed. */
  lemma {:induction false} NeverStuck(c: Config, s: System) returns (wait: real, e: Event)
    requires !Drained(s) && s.workers != []
    ensures wait >= s.now && Enabled(After(c, s, Tick(wait)), e)
    ensures e.EnqueueDone? || e.Begin? || e.Succeed? || (e.Take? && Subject(After(c, s, Tick(wait)), e).Some?)
  {
    wait := s.now;
    if s.submitting != {} {
      var id :| id in s.submitting;
      e := EnqueueDone(id);
    } else if w :| 0 <= w < |s.workers| && s.workers[w] != Idle {
      e := if s.workers[w].Picked? then Begin(w) else Succeed(w, "");
    } else {
      e := Take(0);
      if s.queue.ready == [] {
        var t := s.queue.delayed[0];
        wait := if t.due < s.now then s.now else t.due;
        assert t in s.queue.delayed;
      }
      PollsNothing(s.queue, wait);
    }
  }
}
