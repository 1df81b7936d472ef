/** The in-memory job queue of workers/queue.py: a ready deque and a list of timers.
    Every reading of the monotonic clock is a parameter. */
module JobQueue {
  import opened Options

  type JobId = string

  datatype Timer = Timer(due: real, id: JobId)

  datatype Queue = Queue(ready: seq<JobId>, delayed: seq<Timer>)

  const EMPTY := Queue([], [])

  function Enqueued(q: Queue, id: JobId, delay: real, now: real): Queue {
    if delay > 0.0 then q.(delayed := q.delayed + [Timer(now + delay, id)]) else q.(ready := q.ready + [id])
  }

  /** The ids of the timers due at `now`, in the order they were set. */
  function DueIds(delayed: seq<Timer>, now: real): seq<JobId> {
    if delayed == [] then []
    else
      var rest := DueIds(delayed[..|delayed| - 1], now);
      var t := delayed[|delayed| - 1];
      if t.due <= now then rest + [t.id] else rest
  }

  function NotDue(delayed: seq<Timer>, now: real): seq<Timer> {
    if delayed == [] then []
    else
      var rest := NotDue(delayed[..|delayed| - 1], now);
      var t := delayed[|delayed| - 1];
      if t.due <= now then rest else rest + [t]
  }

  function Promoted(q: Queue, now: real): Queue {
    Queue(q.ready + DueIds(q.delayed, now), NotDue(q.delayed, now))
  }

  /** One locked section of `dequeue`: promote, then take the first ready id if there is one. */
  function Polled(q: Queue, now: real): (Queue, Option<JobId>) {
    var p := Promoted(q, now);
    if p.ready == [] then (p, None) else (p.(ready := p.ready[1..]), Some(p.ready[0]))
  }

  /** What one locked section of another thread does to the queue. */
  datatype Op = Put(id: JobId, delay: real, at: real) | Poll(at: real)

  function Applied(q: Queue, op: Op): Queue {
    match op
    case Put(id, delay, at) => Enqueued(q, id, delay, at)
    case Poll(at) => Polled(q, at).0
  }

  function AppliedAll(q: Queue, ops: seq<Op>): Queue {
    if ops == [] then q else Applied(AppliedAll(q, ops[..|ops| - 1]), ops[|ops| - 1])
  }

  // ----- Clock readings of one `dequeue` call -----

  /** The first reading, which sets the deadline; then, for each round, the reading that
      promotes and the reading that is compared with the deadline. */
  datatype Clock = Clock(start: real, polls: nat -> real, checks: nat -> real)

  function Deadline(c: Clock, timeout: real): real { c.start + timeout }

  /** The clock never goes back, and the sleep between rounds lasts at least 0.01. */
  ghost predicate Monotonic(c: Clock) {
    && c.start <= c.polls(0)
    && (forall k: nat :: c.polls(k) <= c.checks(k))
    && (forall k: nat :: c.checks(k) + 0.01 <= c.polls(k + 1))
  }

  /** The queue at the start of round `k`, when every earlier round took nothing and other
      threads ran `others(j)` during the sleep after round `j`. */
  function AtRound(q: Queue, c: Clock, others: nat -> seq<Op>, k: nat): Queue
    decreases k, 0
  {
    if k == 0 then q else AppliedAll(RoundPoll(q, c, others, k - 1).0, others(k - 1))
  }

  function RoundPoll(q: Queue, c: Clock, others: nat -> seq<Op>, k: nat): (Queue, Option<JobId>)
    decreases k, 1
  {
    Polled(AtRound(q, c, others, k), c.polls(k))
  }

  /** Round `k` takes nothing and ends before the deadline. */
  ghost predicate Fruitless(q: Queue, c: Clock, others: nat -> seq<Op>, timeout: real, k: nat) {
    RoundPoll(q, c, others, k).1 == None && c.checks(k) < Deadline(c, timeout)
  }

  ghost predicate FruitlessBefore(q: Queue, c: Clock, others: nat -> seq<Op>, timeout: real, n: nat) {
    forall k: nat :: k < n ==> Fruitless(q, c, others, timeout, k)
  }

  lemma FirstRound(q: Queue, c: Clock, others: nat -> seq<Op>, timeout: real)
    ensures RoundPoll(q, c, others, 0) == Polled(q, c.polls(0))
    ensures FruitlessBefore(q, c, others, timeout, 0)
  {
  }

  lemma NextRound(q: Queue, c: Clock, others: nat -> seq<Op>, timeout: real, k: nat)
    ensures RoundPoll(q, c, others, k + 1) ==
            Polled(AppliedAll(RoundPoll(q, c, others, k).0, others(k)), c.polls(k + 1))
    ensures (FruitlessBefore(q, c, others, timeout, k) && Fruitless(q, c, others, timeout, k)) ==>
              FruitlessBefore(q, c, others, timeout, k + 1)
  {
  }

  lemma FruitlessWritten(q: Queue, c: Clock, others: nat -> seq<Op>, timeout: real, n: nat)
    requires FruitlessBefore(q, c, others, timeout, n)
    ensures forall k: nat :: k < n ==> RoundPoll(q, c, others, k).1 == None && c.checks(k) < c.start + timeout
  {
    hide RoundPoll;
    forall k: nat | k < n ensures RoundPoll(q, c, others, k).1 == None && c.checks(k) < c.start + timeout {
      assert Fruitless(q, c, others, timeout, k);
    }
  }

  class InMemoryJobQueue {
    var ready: seq<JobId>
    var delayed: seq<Timer>

    function Value(): Queue
      reads this
    {
      Queue(ready, delayed)
    }

    constructor ()
      ensures Value() == EMPTY
    {
      ready, delayed := [], [];
    }

    method Enqueue(id: JobId, delay: real, now: real)
      modifies this
      ensures Value() == Enqueued(old(Value()), id, delay, now)
      ensures delay > 0.0 ==> ready == old(ready) && delayed == old(delayed) + [Timer(now + delay, id)]
      ensures delay <= 0.0 ==> ready == old(ready) + [id] && delayed == old(delayed)
    {
      if delay > 0.0 {
        delayed := delayed + [Timer(now + delay, id)];
      } else {
        ready := ready + [id];
      }
    }

    method Promote(now: real)
      modifies this
      ensures Value() == Promoted(old(Value()), now)
    {
      var due: seq<JobId>, later: seq<Timer> := [], [];
      for i := 0 to |delayed|
        invariant Value() == old(Value())
        invariant due == DueIds(delayed[..i], now) && later == NotDue(delayed[..i], now)
      {
        assert delayed[..i + 1][..i] == delayed[..i];
        if delayed[i].due <= now { due := due + [delayed[i].id]; } else { later := later + [delayed[i]]; }
      }
      assert delayed[..|delayed|] == delayed;
      ready, delayed := ready + due, later;
    }

    method PollOnce(now: real) returns (taken: Option<JobId>)
      modifies this
      ensures (Value(), taken) == Polled(old(Value()), now)
    {
      Promote(now);
      if ready == [] { return None; }
      taken := Some(ready[0]);
      ready := ready[1..];
    }

    /** Another thread's locked section. */
    method Run(op: Op)
      modifies this
      ensures Value() == Applied(old(Value()), op)
    {
      match op
      case Put(id, delay, at) => Enqueue(id, delay, at);
      case Poll(at) => var _ := PollOnce(at);
    }

    method RunAll(ops: seq<Op>)
      modifies this
      ensures Value() == AppliedAll(old(Value()), ops)
    {
      for i := 0 to |ops|
        invariant Value() == AppliedAll(old(Value()), ops[..i])
      {
        assert ops[..i + 1][..i] == ops[..i];
        Run(ops[i]);
      }
      assert ops[..|ops|] == ops;
    }

    /** `dequeue` polls until it takes an id or the deadline passes.  `rounds` counts the
        rounds that took nothing before the last one. */
    method Dequeue(timeout: real, c: Clock, others: nat -> seq<Op>) returns (taken: Option<JobId>, rounds: nat)
      requires Monotonic(c)
      modifies this
      ensures (Value(), taken) == RoundPoll(old(Value()), c, others, rounds)
      ensures taken == None ==> Deadline(c, timeout) <= c.checks(rounds)
      ensures FruitlessBefore(old(Value()), c, others, timeout, rounds)
      ensures taken == None ==> c.start + timeout <= c.checks(rounds)
      ensures forall k: nat :: k < rounds ==>
                RoundPoll(old(Value()), c, others, k).1 == None && c.checks(k) < c.start + timeout
    {
      hide RoundPoll, Left, FruitlessBefore, Monotonic;
      ghost var q := Value();
      FirstRound(q, c, others, timeout);
      rounds := 0;
      taken := PollOnce(c.polls(0));
      while taken == None && c.checks(rounds) < Deadline(c, timeout)
        invariant (Value(), taken) == RoundPoll(q, c, others, rounds)
        invariant FruitlessBefore(q, c, others, timeout, rounds)
        decreases Left(Deadline(c, timeout) - c.polls(rounds))
      {
        LeftShrinks(c, timeout, rounds);
        NextRound(q, c, others, timeout, rounds);
        RunAll(others(rounds));
        rounds := rounds + 1;
        taken := PollOnce(c.polls(rounds));
      }
      FruitlessWritten(q, c, others, timeout, rounds);
    }

    function Size(): (n: nat)
      reads this
      ensures n == 0 <==> Value() == EMPTY
      ensures n == |Value().ready| + |Value().delayed|
    {
      |ready| + |delayed|
    }
  }

  /** An upper bound on the rounds still possible within `r` seconds. */
  function Left(r: real): nat {
    if r <= 0.0 then 0 else (100.0 * r).Floor + 1
  }

  lemma LeftShrinks(c: Clock, timeout: real, rounds: nat)
    requires Monotonic(c) && c.checks(rounds) < Deadline(c, timeout)
    ensures Left(Deadline(c, timeout) - c.polls(rounds + 1)) < Left(Deadline(c, timeout) - c.polls(rounds))
  {
    var a, b := Deadline(c, timeout) - c.polls(rounds), Deadline(c, timeout) - c.polls(rounds + 1);
    assert c.polls(rounds) <= c.checks(rounds) && c.checks(rounds) + 0.01 <= c.polls(rounds + 1);
    assert 100.0 * b + 1.0 <= 100.0 * a;
    assert (100.0 * b + 1.0).Floor == (100.0 * b).Floor + 1;
  }

  // ----- Whole runs, with every enqueue told apart by its ticket -----

  /** `due` is the earliest time the entry may leave: the enqueue time plus a positive delay. */
  datatype Slot = Slot(ticket: nat, id: JobId, due: real)

  datatype Exit = Exit(slot: Slot, at: real)

  /** The queue with its history: every put so far, the order in which entries became
      ready, and the exits in order. */
  datatype Log = Log(now: real, puts: seq<Op>, ready: seq<Slot>, delayed: seq<Slot>,
                     entered: seq<Slot>, left: seq<Exit>)

  const START := Log(0.0, [], [], [], [], [])

  function DueSlots(s: seq<Slot>, now: real): seq<Slot> {
    if s == [] then []
    else
      var rest := DueSlots(s[..|s| - 1], now);
      if s[|s| - 1].due <= now then rest + [s[|s| - 1]] else rest
  }

  function LaterSlots(s: seq<Slot>, now: real): seq<Slot> {
    if s == [] then []
    else
      var rest := LaterSlots(s[..|s| - 1], now);
      if s[|s| - 1].due <= now then rest else rest + [s[|s| - 1]]
  }

  function Logged(l: Log, op: Op): Log {
    match op
    case Put(id, delay, at) =>
      var slot := Slot(|l.puts|, id, if delay > 0.0 then at + delay else at);
      if delay > 0.0 then l.(now := at, puts := l.puts + [op], delayed := l.delayed + [slot])
      else l.(now := at, puts := l.puts + [op], ready := l.ready + [slot], entered := l.entered + [slot])
    case Poll(at) =>
      var due := DueSlots(l.delayed, at);
      var ready, delayed, entered := l.ready + due, LaterSlots(l.delayed, at), l.entered + due;
      if ready == [] then l.(now := at, ready := ready, delayed := delayed, entered := entered)
      else l.(now := at, ready := ready[1..], delayed := delayed, entered := entered,
              left := l.left + [Exit(ready[0], at)])
  }

  function LoggedAll(ops: seq<Op>): Log {
    if ops == [] then START else Logged(LoggedAll(ops[..|ops| - 1]), ops[|ops| - 1])
  }

  /** Operations read a clock that never goes back. */
  ghost predicate Chronological(ops: seq<Op>) {
    (forall i :: 0 <= i < |ops| ==> 0.0 <= ops[i].at) && forall i, j :: 0 <= i < j < |ops| ==> ops[i].at <= ops[j].at
  }

  function Ids(s: seq<Slot>): seq<JobId> { seq(|s|, i requires 0 <= i < |s| => s[i].id) }

  function Timers(s: seq<Slot>): seq<Timer> { seq(|s|, i requires 0 <= i < |s| => Timer(s[i].due, s[i].id)) }

  function Exits(s: seq<Exit>): seq<Slot> { seq(|s|, i requires 0 <= i < |s| => s[i].slot) }

  function Plain(l: Log): Queue { Queue(Ids(l.ready), Timers(l.delayed)) }

  lemma DueSlotsPlain(s: seq<Slot>, now: real)
    ensures DueIds(Timers(s), now) == Ids(DueSlots(s, now)) && NotDue(Timers(s), now) == Timers(LaterSlots(s, now))
  {
    if s != [] {
      DueSlotsPlain(s[..|s| - 1], now);
      assert Timers(s)[..|s| - 1] == Timers(s[..|s| - 1]);
    }
  }

  /** The log is the queue with names: one operation does to the plain queue what it does
      to the log, and a poll takes the id of the entry it logs as leaving. */
  lemma {:induction false} StepRefines(l: Log, op: Op)
    ensures Plain(Logged(l, op)) == Applied(Plain(l), op)
    ensures op.Poll? ==>
              var left := Logged(l, op).left;
              Polled(Plain(l), op.at).1 == if |left| == |l.left| then None else Some(left[|l.left|].slot.id)
  {
    var l' := Logged(l, op);
    match op
    case Put(id, delay, at) =>
      assert Plain(l').ready == Enqueued(Plain(l), id, delay, at).ready;
      assert Plain(l').delayed == Enqueued(Plain(l), id, delay, at).delayed;
    case Poll(at) =>
      DueSlotsPlain(l.delayed, at);
      assert Ids(l.ready + DueSlots(l.delayed, at)) == Ids(l.ready) + Ids(DueSlots(l.delayed, at));
      assert Plain(l').ready == Polled(Plain(l), at).0.ready;
  }

  /** Over every run, forgetting the history gives the queue itself. */
  lemma {:induction false} LogRefines(ops: seq<Op>)
    ensures Plain(LoggedAll(ops)) == AppliedAll(EMPTY, ops)
  {
    hide Plain, Logged, Applied;
    if ops == [] {
      PlainStart();
    } else {
      LogRefines(ops[..|ops| - 1]);
      StepRefines(LoggedAll(ops[..|ops| - 1]), ops[|ops| - 1]);
    }
  }

  lemma PlainStart()
    ensures Plain(START) == EMPTY
  {
  }

  ghost predicate Increasing(s: seq<Slot>) {
    forall i, j :: 0 <= i < j < |s| ==> s[i].ticket < s[j].ticket
  }

  lemma SplitSlots(s: seq<Slot>, now: real)
    ensures multiset(s) == multiset(DueSlots(s, now)) + multiset(LaterSlots(s, now))
  {
    if s != [] {
      SplitSlots(s[..|s| - 1], now);
      assert s == s[..|s| - 1] + [s[|s| - 1]];
    }
  }

  lemma {:induction false} SplitMembers(s: seq<Slot>, now: real)
    ensures forall x :: x in DueSlots(s, now) ==> x in s && x.due <= now
    ensures forall x :: x in LaterSlots(s, now) ==> x in s && now < x.due
  {
    if s != [] { SplitMembers(s[..|s| - 1], now); }
  }

  lemma {:induction false} LaterIncreasing(s: seq<Slot>, now: real)
    requires Increasing(s)
    ensures Increasing(LaterSlots(s, now))
  {
    if s != [] {
      LaterIncreasing(s[..|s| - 1], now);
      SplitMembers(s[..|s| - 1], now);
      assert forall x :: x in s[..|s| - 1] ==> x.ticket < s[|s| - 1].ticket;
    }
  }

  /** Timers that come due together become ready in the order they were set. */
  lemma {:induction false} DueIncreasing(s: seq<Slot>, now: real)
    requires Increasing(s)
    ensures Increasing(DueSlots(s, now))
  {
    if s != [] {
      DueIncreasing(s[..|s| - 1], now);
      SplitMembers(s[..|s| - 1], now);
      assert forall x :: x in s[..|s| - 1] ==> x.ticket < s[|s| - 1].ticket;
    }
  }

  function SlotOf(ticket: nat, put: Op): Slot
    requires put.Put?
  {
    Slot(ticket, put.id, if put.delay > 0.0 then put.at + put.delay else put.at)
  }

  /** One element for every put: its ticket, id, and earliest leaving time. */
  function Issued(puts: seq<Op>): multiset<Slot>
    requires forall p :: p in puts ==> p.Put?
  {
    if puts == [] then multiset{}
    else Issued(puts[..|puts| - 1]) + multiset{SlotOf(|puts| - 1, puts[|puts| - 1])}
  }

  ghost predicate Puts(l: Log) { forall p :: p in l.puts ==> p.Put? }

  ghost predicate Conserved(l: Log) {
    Puts(l) && multiset(l.entered) + multiset(l.delayed) == Issued(l.puts)
  }

  ghost predicate FirstInFirstOut(l: Log) { Exits(l.left) + l.ready == l.entered }

  ghost predicate Waiting(l: Log) {
    Increasing(l.delayed) && forall x :: x in l.delayed ==> x.ticket < |l.puts|
  }

  ghost predicate Punctual(l: Log) {
    (forall e :: e in l.left ==> e.slot.due <= e.at) && (forall x :: x in l.ready ==> x.due <= l.now)
  }

  lemma {:induction false} PutConserves(l: Log, op: Op)
    requires Conserved(l) && op.Put?
    ensures Conserved(Logged(l, op))
  {
    hide Issued;
    IssuedMore(l.puts, op);
    assert multiset(l.entered + [SlotOf(|l.puts|, op)]) == multiset(l.entered) + multiset{SlotOf(|l.puts|, op)};
  }

  lemma {:induction false} IssuedMore(puts: seq<Op>, op: Op)
    requires op.Put? && forall p :: p in puts ==> p.Put?
    ensures Issued(puts + [op]) == Issued(puts) + multiset{SlotOf(|puts|, op)}
  {
    assert (puts + [op])[..|puts|] == puts;
  }

  lemma {:induction false} PollConserves(l: Log, op: Op)
    requires Conserved(l) && op.Poll?
    ensures Conserved(Logged(l, op))
  {
    hide Issued;
    SplitSlots(l.delayed, op.at);
  }

  lemma {:induction false} StepIsFifo(l: Log, op: Op)
    requires FirstInFirstOut(l)
    ensures FirstInFirstOut(Logged(l, op))
  {
    if op.Poll? {
      var ready := l.ready + DueSlots(l.delayed, op.at);
      if ready != [] {
        assert Exits(l.left + [Exit(ready[0], op.at)]) == Exits(l.left) + [ready[0]];
      }
    }
  }

  lemma {:induction false} StepKeepsTimes(l: Log, op: Op)
    requires Waiting(l) && Punctual(l) && l.now <= op.at
    ensures Waiting(Logged(l, op)) && Punctual(Logged(l, op))
  {
    if op.Poll? {
      hide Increasing;
      SplitMembers(l.delayed, op.at);
      LaterIncreasing(l.delayed, op.at);
    }
  }

  lemma NowIsLast(ops: seq<Op>)
    requires ops != []
    ensures LoggedAll(ops).now == ops[|ops| - 1].at
  {
  }

  /** Over every run: each put is held or has left, exactly once (conservation); entries
      leave in the order they became ready (FIFO); timers wait in the order they were set;
      and no entry leaves before its enqueue time plus its delay. */
  lemma {:induction false} QueueRuns(ops: seq<Op>)
    requires Chronological(ops)
    ensures Conserved(LoggedAll(ops)) && FirstInFirstOut(LoggedAll(ops))
    ensures var l := LoggedAll(ops);
            multiset(Exits(l.left)) + multiset(l.ready) + multiset(l.delayed) == Issued(l.puts)
    ensures Waiting(LoggedAll(ops)) && Punctual(LoggedAll(ops))
  {
    if ops != [] {
      var front, op := ops[..|ops| - 1], ops[|ops| - 1];
      QueueRuns(front);
      hide Logged, Conserved, FirstInFirstOut, Waiting, Punctual;
      if front != [] { NowIsLast(front); }
      if op.Put? { PutConserves(LoggedAll(front), op); } else { PollConserves(LoggedAll(front), op); }
      StepIsFifo(LoggedAll(front), op);
      StepKeepsTimes(LoggedAll(front), op);
    }
    HeldOrLeft(LoggedAll(ops));
  }

  lemma HeldOrLeft(l: Log)
    requires Conserved(l) && FirstInFirstOut(l)
    ensures multiset(Exits(l.left)) + multiset(l.ready) + multiset(l.delayed) == Issued(l.puts)
  {
    assert multiset(Exits(l.left) + l.ready) == multiset(Exits(l.left)) + multiset(l.ready);
  }

  /** A poll takes nothing exactly when nothing is ready and no timer is due. */
  lemma {:induction false} PollsNothing(q: Queue, now: real)
    ensures Polled(q, now).1 == None <==> q.ready == [] && forall t :: t in q.delayed ==> now < t.due
  {
    DueIdsEmpty(q.delayed, now);
  }

  lemma {:induction false} DueIdsEmpty(s: seq<Timer>, now: real)
    ensures DueIds(s, now) == [] <==> forall t :: t in s ==> now < t.due
  {
    if s != [] {
      DueIdsEmpty(s[..|s| - 1], now);
      assert s == s[..|s| - 1] + [s[|s| - 1]];
    }
  }
}
