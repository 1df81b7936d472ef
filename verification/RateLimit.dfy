/** The in-memory sliding-window limiter of security/ratelimit.py.  The clock readings are
    parameters, over the reals. */
module RateLimit {
  datatype Outcome =
    | Answer(allowed: bool, limit: int, remaining: int, retryAfter: int)
    | IndexError

  /** Python's `int`: truncation towards zero. */
  function Trunc(x: real): int { if x >= 0.0 then x.Floor else -((-x).Floor) }

  function Max(a: int, b: int): int { if a < b then b else a }

  /** The deque without its leading entries older than `cutoff`. */
  function Pruned(q: seq<real>, cutoff: real): seq<real> {
    if q != [] && q[0] < cutoff then Pruned(q[1..], cutoff) else q
  }

  /** `hit` on one key's deque.  A limit below one finds no oldest entry to wait for when the
      deque is empty, and indexing it raises. */
  function HitOn(q: seq<real>, limit: int, window: int, now: real): (seq<real>, Outcome) {
    var kept := Pruned(q, now - window as real);
    if |kept| < limit then (kept + [now], Answer(true, limit, limit - (|kept| + 1), 0))
    else if kept == [] then (kept, IndexError)
    else (kept, Answer(false, limit, 0, Max(1, Trunc(kept[0] + window as real - now) + 1)))
  }

  type Events = map<string, seq<real>>

  function Deque(events: Events, key: string): seq<real> { if key in events then events[key] else [] }

  class InMemoryRateLimiter {
    var events: Events

    constructor ()
      ensures events == map[]
    {
      events := map[];
    }

    method Hit(key: string, limit: int, window: int, now: real) returns (r: Outcome)
      modifies this
      ensures events == old(events)[key := HitOn(Deque(old(events), key), limit, window, now).0]
      ensures r == HitOn(Deque(old(events), key), limit, window, now).1
      ensures limit < 1 && Deque(old(events), key) == [] ==> r == IndexError
      ensures r.Answer? ==> r.limit == limit && (r.allowed ==> r.retryAfter == 0) && (!r.allowed ==> r.remaining == 0)
    {
      var cutoff := now - window as real;
      var q := Deque(events, key);
      ghost var before := q;
      while q != [] && q[0] < cutoff
        invariant Pruned(q, cutoff) == Pruned(before, cutoff)
      {
        q := q[1..];
      }
      if |q| >= limit {
        events := events[key := q];
        if q == [] { return IndexError; }
        return Answer(false, limit, 0, Max(1, Trunc(q[0] + window as real - now) + 1));
      }
      q := q + [now];
      events := events[key := q];
      return Answer(true, limit, limit - |q|, 0);
    }

    method Reset()
      modifies this
      ensures events == map[]
    {
      events := map[];
    }

    /** `enforce`: hit every key in turn; the first that trips wins, and otherwise the answer
        with the fewest hits remaining.  `nows` are the clock readings; `hits` counts the keys hit. */
    method Enforce(enabled: bool, keys: seq<string>, limit: int, window: int, nows: seq<real>)
      returns (worst: Outcome, ghost hits: nat)
      requires |nows| == |keys|
      modifies this
      ensures !enabled ==> hits == 0 && worst == Answer(true, limit, limit, 0)
      ensures hits <= |keys| && events == AfterHits(old(events), keys, limit, window, nows, hits)
      ensures forall key :: key !in keys[..hits] ==> Deque(events, key) == Deque(old(events), key)
      ensures enabled ==> Trips(old(events), keys, limit, window, nows, hits, worst)
      ensures enabled ==> worst == Enforced(old(events), keys, limit, window, nows, Answer(true, limit, limit, 0))
    {
      hide HitOn;
      worst, hits := Answer(true, limit, limit, 0), 0;
      if !enabled { return; }
      for i := 0 to |keys|
        invariant worst.Answer? && worst.allowed && hits == i
        invariant events == AfterHits(old(events), keys, limit, window, nows, i)
        invariant forall j :: 0 <= j < i ==> Passed(AnswerAt(old(events), keys, limit, window, nows, j))
        invariant Enforced(events, keys[i..], limit, window, nows[i..], worst) ==
                  Enforced(old(events), keys, limit, window, nows, Answer(true, limit, limit, 0))
      {
        hits := i + 1;
        var r := Hit(keys[i], limit, window, nows[i]);
        assert r == AnswerAt(old(events), keys, limit, window, nows, i);
        if r == IndexError || !r.allowed {
          OthersKept(old(events), keys, limit, window, nows, hits);
          return r, hits;
        }
        if r.remaining < worst.remaining { worst := r; }
      }
      OthersKept(old(events), keys, limit, window, nows, hits);
    }
  }

  /** The limiter after the first `k` keys have been hit in turn. */
  function AfterHits(events: Events, keys: seq<string>, limit: int, window: int, nows: seq<real>, k: nat): Events
    requires k <= |keys| == |nows|
  {
    if k == 0 then events
    else
      var before := AfterHits(events, keys, limit, window, nows, k - 1);
      before[keys[k - 1] := HitOn(Deque(before, keys[k - 1]), limit, window, nows[k - 1]).0]
  }

  /** What the hit of key `k` answers after those before it. */
  function AnswerAt(events: Events, keys: seq<string>, limit: int, window: int, nows: seq<real>, k: nat): Outcome
    requires k < |keys| == |nows|
  {
    HitOn(Deque(AfterHits(events, keys, limit, window, nows, k), keys[k]), limit, window, nows[k]).1
  }

  /** All keys were hit and passed, or `k - 1` is the first that did not, and its answer counts. */
  ghost predicate Trips(events: Events, keys: seq<string>, limit: int, window: int, nows: seq<real>, k: nat,
                        worst: Outcome)
    requires k <= |keys| == |nows|
  {
    if forall j :: 0 <= j < |keys| ==> Passed(AnswerAt(events, keys, limit, window, nows, j))
    then k == |keys| && Passed(worst)
    else
      && k > 0 && (forall j :: 0 <= j < k - 1 ==> Passed(AnswerAt(events, keys, limit, window, nows, j)))
      && !Passed(worst) && worst == AnswerAt(events, keys, limit, window, nows, k - 1)
  }

  lemma {:induction false} OthersKept(events: Events, keys: seq<string>, limit: int, window: int, nows: seq<real>,
                                      k: nat)
    requires k <= |keys| == |nows|
    ensures forall key :: key !in keys[..k] ==>
              Deque(AfterHits(events, keys, limit, window, nows, k), key) == Deque(events, key)
  {
    hide HitOn;
    if k > 0 {
      OthersKept(events, keys, limit, window, nows, k - 1);
      assert keys[..k] == keys[..k - 1] + [keys[k - 1]];
    }
  }

  /** The answer of `enforce`, when `worst` is the worst so far. */
  function Enforced(events: Events, keys: seq<string>, limit: int, window: int, nows: seq<real>,
                    worst: Outcome): Outcome
    requires |nows| == |keys| && worst.Answer?
    decreases keys
  {
    if keys == [] then worst
    else
      var (q, r) := HitOn(Deque(events, keys[0]), limit, window, nows[0]);
      if r == IndexError || !r.allowed then r
      else
        Enforced(events[keys[0] := q], keys[1..], limit, window, nows[1..],
                 if r.remaining < worst.remaining then r else worst)
  }

  /** What each key's hit answers when none of them stops the loop. */
  function HitAll(events: Events, keys: seq<string>, limit: int, window: int, nows: seq<real>): seq<Outcome>
    requires |nows| == |keys|
    decreases keys
  {
    if keys == [] then []
    else
      var (q, r) := HitOn(Deque(events, keys[0]), limit, window, nows[0]);
      [r] + HitAll(events[keys[0] := q], keys[1..], limit, window, nows[1..])
  }

  predicate Passed(r: Outcome) { r.Answer? && r.allowed }

  /** `enforce` allows exactly when every key's hit is allowed; then its answer is one of
      theirs, or the unused limit, with the fewest hits remaining; otherwise it answers what
      some hit answered that was not allowed. */
  lemma {:induction false} EnforceIsWorst(events: Events, keys: seq<string>, limit: int, window: int,
                                          nows: seq<real>, worst: Outcome)
    requires |nows| == |keys| && Passed(worst)
    ensures var (r, all) := (Enforced(events, keys, limit, window, nows, worst),
                             HitAll(events, keys, limit, window, nows));
            && (Passed(r) <==> forall a :: a in all ==> Passed(a))
            && (Passed(r) ==> (r == worst || r in all) && r.remaining <= worst.remaining
                              && forall a :: a in all ==> r.remaining <= a.remaining)
            && (!Passed(r) ==> r in all)
    decreases keys
  {
    if keys != [] {
      var (q, r) := HitOn(Deque(events, keys[0]), limit, window, nows[0]);
      var events', rest := events[keys[0] := q], HitAll(events[keys[0] := q], keys[1..], limit, window, nows[1..]);
      hide HitOn;
      assert r in [r] + rest && forall a :: a in [r] + rest <==> a == r || a in rest;
      if Passed(r) {
        var next := if r.remaining < worst.remaining then r else worst;
        EnforceIsWorst(events', keys[1..], limit, window, nows[1..], next);
      }
    }
  }

  // ----- One key over a whole run -----

  /** The deque, the log of every allowed hit, and the answers. */
  datatype History = History(deque: seq<real>, log: seq<real>, answers: seq<Outcome>)

  function After(limit: int, window: int, times: seq<real>): History {
    if times == [] then History([], [], [])
    else
      var h, now := After(limit, window, times[..|times| - 1]), times[|times| - 1];
      var (q, r) := HitOn(h.deque, limit, window, now);
      History(q, if r.Answer? && r.allowed then h.log + [now] else h.log, h.answers + [r])
  }

  /** Clock readings in the order in which their hits get the lock. A reading is taken before
      the lock, so a later hit may carry an earlier reading, but by no more than `e`. */
  ghost predicate Jitter(times: seq<real>, e: real) {
    e >= 0.0 && forall i, j :: 0 <= i < j < |times| ==> times[i] <= times[j] + e
  }

  function Highest(times: seq<real>): real
    requires times != []
  {
    if |times| == 1 then times[0]
    else
      var rest := Highest(times[..|times| - 1]);
      if times[|times| - 1] > rest then times[|times| - 1] else rest
  }

  lemma {:induction false} HighestIsReading(times: seq<real>) returns (i: nat)
    requires times != []
    ensures i < |times| && times[i] == Highest(times)
  {
    i := |times| - 1;
    if |times| > 1 && times[i] <= Highest(times[..i]) { i := HighestIsReading(times[..i]); }
  }

  /** The entries of the log that are not older than `cutoff`. */
  function Since(log: seq<real>, cutoff: real): seq<real> {
    if log == [] then []
    else
      var rest := Since(log[..|log| - 1], cutoff);
      if log[|log| - 1] >= cutoff then rest + [log[|log| - 1]] else rest
  }

  /** The deque is an end of the log, and everything before it is older than the cutoff. */
  ghost predicate EndOf(deque: seq<real>, log: seq<real>, cutoff: real) {
    |deque| <= |log| && deque == log[|log| - |deque|..] && forall i :: 0 <= i < |log| - |deque| ==> log[i] < cutoff
  }

  ghost predicate AllSince(s: seq<real>, cutoff: real) { forall i :: 0 <= i < |s| ==> s[i] >= cutoff }

  ghost predicate AllUpto(s: seq<real>, bound: real) { forall i :: 0 <= i < |s| ==> s[i] <= bound }

  /** Any `limit + 1` consecutive allowed hits span more than `span`. */
  ghost predicate Spaced(log: seq<real>, limit: int, span: real) {
    forall i, j :: 0 <= i < j < |log| && i + limit <= j ==> log[j] > log[i] + span
  }

  lemma {:induction false} PrunedEnd(deque: seq<real>, log: seq<real>, cutoff: real, bound: real)
    requires EndOf(deque, log, bound) && cutoff <= bound
    ensures EndOf(Pruned(deque, cutoff), log, bound) && |Pruned(deque, cutoff)| <= |deque|
    decreases |deque|
  {
    if deque != [] {
      var n := |log| - |deque|;
      assert deque[1..] == log[n + 1..] && deque[0] == log[n];
      if deque[0] < cutoff { PrunedEnd(deque[1..], log, cutoff, bound); }
    }
  }

  lemma {:induction false} PrunedHead(q: seq<real>, cutoff: real)
    ensures Pruned(q, cutoff) != [] ==> Pruned(q, cutoff)[0] >= cutoff
  {
    if q != [] && q[0] < cutoff { PrunedHead(q[1..], cutoff); }
  }

  lemma EndOfMore(deque: seq<real>, log: seq<real>, cutoff: real, more: real)
    requires EndOf(deque, log, cutoff) && cutoff <= more
    ensures EndOf(deque, log, more)
  {
  }

  /** An end of the log lies between the log filtered to two windows: the narrower one has
      all that cannot have been dropped, the wider one all that can have been kept. */
  lemma {:induction false} EndIsBetween(deque: seq<real>, log: seq<real>, narrow: real, wide: real)
    requires EndOf(deque, log, narrow) && AllSince(deque, wide)
    ensures |Since(log, narrow)| <= |deque| <= |Since(log, wide)|
    ensures narrow == wide ==> Since(log, narrow) == deque
  {
    if log != [] {
      var front, last := log[..|log| - 1], log[|log| - 1];
      if deque == [] {
        EndIsBetween([], front, narrow, wide);
      } else {
        assert deque[|deque| - 1] == last;
        var d := deque[..|deque| - 1];
        assert d == front[|front| - |d|..];
        EndIsBetween(d, front, narrow, wide);
        assert deque == d + [last];
      }
    }
  }

  /** The state kept by every hit, when `high` is the highest reading so far. */
  ghost predicate Good(h: History, limit: int, window: int, e: real, high: real) {
    && Jitter(h.log, e) && AllUpto(h.log, high)
    && EndOf(h.deque, h.log, high - window as real)
    && |h.deque| <= limit && Spaced(h.log, limit, window as real - e)
  }

  lemma {:induction false} AllowedIsSpaced(log: seq<real>, kept: seq<real>, limit: int, span: real, now: real)
    requires Spaced(log, limit, span) && EndOf(kept, log, now - span) && |kept| < limit
    ensures Spaced(log + [now], limit, span)
  {
    var log' := log + [now];
    forall i, j | 0 <= i < j < |log'| && i + limit <= j ensures log'[j] > log'[i] + span {
      if j < |log| { assert log[j] > log[i] + span; }
    }
  }

  lemma AppendJitter(log: seq<real>, e: real, now: real, high: real)
    requires Jitter(log, e) && AllUpto(log, high) && high <= now + e
    ensures Jitter(log + [now], e)
  {
  }

  lemma {:induction false} AppendEnd(kept: seq<real>, log: seq<real>, cutoff: real, now: real)
    requires EndOf(kept, log, cutoff)
    ensures EndOf(kept + [now], log + [now], cutoff)
  {
    var log' := log + [now];
    assert kept + [now] == log'[|log'| - (|kept| + 1)..];
  }

  function Higher(a: real, b: real): real { if a < b then b else a }

  lemma {:induction false} AllowKeepsGood(h: History, limit: int, window: int, e: real, high: real, now: real)
    requires Good(h, limit, window, e, high) && now <= high <= now + e && |h.deque| < limit
    ensures Good(h.(deque := h.deque + [now], log := h.log + [now]), limit, window, e, high)
  {
    EndOfMore(h.deque, h.log, high - window as real, now - (window as real - e));
    AllowedIsSpaced(h.log, h.deque, limit, window as real - e, now);
    AppendEnd(h.deque, h.log, high - window as real, now);
    AppendJitter(h.log, e, now, high);
    hide EndOf, Spaced, Jitter;
  }

  lemma {:induction false} PruneKeepsGood(h: History, limit: int, window: int, e: real, high: real, now: real)
    requires Good(h, limit, window, e, high)
    ensures Good(h.(deque := Pruned(h.deque, now - window as real)), limit, window, e, Higher(high, now))
  {
    hide EndOf, Spaced, Jitter, AllUpto, Pruned;
    AllUptoMore(h.log, high, Higher(high, now));
    EndOfMore(h.deque, h.log, high - window as real, Higher(high, now) - window as real);
    PrunedEnd(h.deque, h.log, now - window as real, Higher(high, now) - window as real);
  }

  lemma AllUptoMore(log: seq<real>, high: real, higher: real)
    requires AllUpto(log, high) && high <= higher
    ensures AllUpto(log, higher)
  {
  }

  lemma GoodIgnoresAnswers(h: History, answers: seq<Outcome>, limit: int, window: int, e: real, high: real)
    requires Good(h, limit, window, e, high)
    ensures Good(h.(answers := answers), limit, window, e, high) && |h.deque| <= limit
  {
  }

  /** Whatever the jitter, one hit keeps the state good. */
  lemma {:induction false} HitKeepsGood(h: History, limit: int, window: int, e: real, high: real, now: real)
    requires limit >= 1 && Good(h, limit, window, e, high) && high <= now + e
    ensures var (q, r) := HitOn(h.deque, limit, window, now);
            && r.Answer?
            && Good(History(q, if r.allowed then h.log + [now] else h.log, h.answers + [r]), limit, window, e,
               Higher(high, now))
            && r.remaining == limit - |q|
  {
    assert e >= 0.0;
    var kept := h.(deque := Pruned(h.deque, now - window as real));
    hide Good, Pruned;
    PruneKeepsGood(h, limit, window, e, high, now);
    var r := HitOn(h.deque, limit, window, now).1;
    GoodIgnoresAnswers(kept, h.answers + [r], limit, window, e, Higher(high, now));
    if |kept.deque| < limit {
      AllowKeepsGood(kept.(answers := h.answers + [r]), limit, window, e, Higher(high, now), now);
    }
  }

  lemma {:induction false} JitterFront(front: seq<real>, now: real, e: real)
    requires Jitter(front + [now], e)
    ensures Jitter(front, e) && forall i :: 0 <= i < |front| ==> front[i] <= now + e
  {
    var times := front + [now];
    assert forall i :: 0 <= i < |front| ==> times[i] == front[i];
    assert times[|front|] == now;
  }

  lemma EmptyIsGood(limit: int, window: int, e: real, high: real)
    requires limit >= 1 && e >= 0.0
    ensures Good(History([], [], []), limit, window, e, high)
  {
  }

  lemma {:induction false} RunIsGood(limit: int, window: int, e: real, times: seq<real>)
    requires limit >= 1 && Jitter(times, e) && times != []
    ensures Good(After(limit, window, times), limit, window, e, Highest(times))
  {
    var front, now := times[..|times| - 1], times[|times| - 1];
    assert times == front + [now];
    JitterFront(front, now, e);
    hide Good, Jitter, HitOn;
    if front == [] {
      EmptyIsGood(limit, window, e, now);
      HitKeepsGood(History([], [], []), limit, window, e, now, now);
    } else {
      RunIsGood(limit, window, e, front);
      var i := HighestIsReading(front);
      HitKeepsGood(After(limit, window, front), limit, window, e, Highest(front), now);
    }
  }

  /** The state before a hit, seen from its reading. */
  lemma {:induction false} GoodBefore(limit: int, window: int, e: real, front: seq<real>, now: real)
                                      returns (high: real)
    requires limit >= 1 && Jitter(front + [now], e)
    ensures high <= now + e && Good(After(limit, window, front), limit, window, e, high)
  {
    JitterFront(front, now, e);
    if front == [] {
      high := now;
      EmptyIsGood(limit, window, e, now);
    } else {
      high := Highest(front);
      var i := HighestIsReading(front);
      RunIsGood(limit, window, e, front);
    }
  }

  lemma AfterOne(limit: int, window: int, front: seq<real>, now: real)
    ensures var h := After(limit, window, front);
            var (q, r) := HitOn(h.deque, limit, window, now);
            After(limit, window, front + [now]) ==
            History(q, if r.Answer? && r.allowed then h.log + [now] else h.log, h.answers + [r])
  {
    assert (front + [now])[..|front|] == front;
  }

  lemma {:induction false} NoneOlder(kept: seq<real>, log: seq<real>, bound: real, e: real, cutoff: real)
    requires EndOf(kept, log, bound) && Jitter(log, e) && (kept != [] ==> kept[0] >= cutoff)
    ensures AllSince(kept, cutoff - e)
  {
    forall i | 0 <= i < |kept| ensures kept[i] >= cutoff - e {
      var n := |log| - |kept|;
      assert kept[i] == log[n + i] && kept[0] == log[n];
    }
  }

  /** What pruning keeps: nothing recent is dropped, nothing old is kept, up to the jitter. */
  lemma {:induction false} KeptIsRecent(h: History, limit: int, window: int, e: real, high: real, now: real)
    requires Good(h, limit, window, e, high) && high <= now + e
    ensures var kept := Pruned(h.deque, now - window as real);
            EndOf(kept, h.log, now - window as real + e) && AllSince(kept, now - window as real - e)
  {
    var cutoff := now - window as real;
    assert e >= 0.0;
    assert EndOf(h.deque, h.log, cutoff + e) by { EndOfMore(h.deque, h.log, high - window as real, cutoff + e); }
    hide Spaced, Pruned, EndOf, AllSince, Jitter, AllUpto;
    PrunedEnd(h.deque, h.log, cutoff, cutoff + e);
    PrunedHead(h.deque, cutoff);
    NoneOlder(Pruned(h.deque, cutoff), h.log, cutoff + e, e, cutoff);
  }

  lemma {:induction false} HitAfterRun(limit: int, window: int, e: real, front: seq<real>, now: real)
                                       returns (high: real)
    requires limit >= 1 && Jitter(front + [now], e)
    ensures var h := After(limit, window, front);
            var (q, r) := HitOn(h.deque, limit, window, now);
            && now <= high <= now + e && r.Answer? && r.remaining == limit - |q|
            && Good(History(q, if r.allowed then h.log + [now] else h.log, h.answers + [r]), limit, window, e, high)
  {
    var before := GoodBefore(limit, window, e, front, now);
    high := Higher(before, now);
    assert e >= 0.0;
    hide HitOn, Good, After;
    HitKeepsGood(After(limit, window, front), limit, window, e, before, now);
  }

  /** A hit on a deque, by what pruning keeps. */
  lemma HitOnKept(q: seq<real>, limit: int, window: int, now: real)
    requires limit >= 1
    ensures var kept, r := Pruned(q, now - window as real), HitOn(q, limit, window, now).1;
            && r.Answer? && (r.allowed <==> |kept| < limit)
            && HitOn(q, limit, window, now).0 == if r.allowed then kept + [now] else kept
  {
    hide Pruned;
  }

  /** Whether a hit is allowed, read off the log: with jitter `e`, an allowed hit found fewer
      than `limit` allowed hits in the window narrowed by `e`, and a rejected one at least
      `limit` in the window widened by `e`. */
  lemma {:induction false} AllowedByWindow(limit: int, window: int, e: real, front: seq<real>, now: real)
    requires limit >= 1 && Jitter(front + [now], e)
    ensures var h := After(limit, window, front);
            var r := HitOn(h.deque, limit, window, now).1;
            && r.Answer?
            && (r.allowed ==> |Since(h.log, now - window as real + e)| < limit)
            && (!r.allowed ==> |Since(h.log, now - window as real - e)| >= limit)
  {
    hide Good, Since, After, EndOf, AllSince, Pruned, Jitter, HitOn;
    var h := After(limit, window, front);
    var high := GoodBefore(limit, window, e, front, now);
    KeptIsRecent(h, limit, window, e, high, now);
    HitOnKept(h.deque, limit, window, now);
    EndIsBetween(Pruned(h.deque, now - window as real), h.log, now - window as real + e, now - window as real - e);
  }

  lemma AppendSince(kept: seq<real>, now: real, cutoff: real)
    requires AllSince(kept, cutoff) && now >= cutoff
    ensures AllSince(kept + [now], cutoff)
  {
  }

  /** The deque after a hit, read off the log, and the room that the answer reports. */
  lemma {:induction false} DequeIsBetween(limit: int, window: int, e: real, front: seq<real>, now: real)
    requires limit >= 1 && window >= 0 && Jitter(front + [now], e)
    ensures var h := After(limit, window, front + [now]);
            && EndOf(h.deque, h.log, now - window as real + e) && AllSince(h.deque, now - window as real - e)
            && h.answers != [] && h.answers[|h.answers| - 1].Answer?
            && h.answers[|h.answers| - 1].remaining == limit - |h.deque|
  {
    var cutoff := now - window as real;
    assert e >= 0.0 && now >= cutoff - e;
    hide Good, After, EndOf, AllSince, Pruned, Jitter, HitOn;
    var h := After(limit, window, front);
    var kept := Pruned(h.deque, cutoff);
    AfterOne(limit, window, front, now);
    HitOnKept(h.deque, limit, window, now);
    BetweenOne(limit, window, e, front, now);
    var high := HitAfterRun(limit, window, e, front, now);
    AppendEnd(kept, h.log, cutoff + e, now);
    AppendSince(kept, now, cutoff - e);
  }

  lemma {:induction false} BetweenOne(limit: int, window: int, e: real, front: seq<real>, now: real)
    requires limit >= 1 && Jitter(front + [now], e)
    ensures var h, cutoff := After(limit, window, front), now - window as real;
            EndOf(Pruned(h.deque, cutoff), h.log, cutoff + e) && AllSince(Pruned(h.deque, cutoff), cutoff - e)
  {
    hide Good, After, EndOf, AllSince, Pruned, Jitter;
    var high := GoodBefore(limit, window, e, front, now);
    KeptIsRecent(After(limit, window, front), limit, window, e, high, now);
  }

  /** What the answer calls remaining is the room left in the window, up to the jitter. */
  lemma {:induction false} RemainingIsRoom(limit: int, window: int, e: real, front: seq<real>, now: real)
    requires limit >= 1 && window >= 0 && Jitter(front + [now], e)
    ensures var h := After(limit, window, front + [now]);
            && h.answers != [] && h.answers[|h.answers| - 1].Answer?
            && limit - |Since(h.log, now - window as real - e)| <= h.answers[|h.answers| - 1].remaining
            && h.answers[|h.answers| - 1].remaining <= limit - |Since(h.log, now - window as real + e)|
  {
    hide After, Since, EndOf, AllSince, Jitter;
    var h := After(limit, window, front + [now]);
    DequeIsBetween(limit, window, e, front, now);
    EndIsBetween(h.deque, h.log, now - window as real + e, now - window as real - e);
  }

  ghost predicate Monotone(times: seq<real>) { forall i, j :: 0 <= i < j < |times| ==> times[i] <= times[j] }

  lemma MonotoneIsJitter(times: seq<real>)
    requires Monotone(times)
    ensures Jitter(times, 0.0)
  {
  }

  lemma AnswerColumns(q: seq<real>, limit: int, window: int, now: real)
    ensures var r := HitOn(q, limit, window, now).1;
            r.Answer? ==> r.limit == limit && (r.allowed ==> r.retryAfter == 0)
  {
  }

  /** When hits get the lock in the order of their readings, the deque is after every hit
      exactly the log of allowed hits within the closed window that ends now, the hit was
      allowed exactly when that window held fewer than `limit` hits before it, and what the
      answer calls remaining is the room left. */
  lemma {:induction false} DequeIsWindow(limit: int, window: int, front: seq<real>, now: real)
    requires limit >= 1 && window >= 0 && Monotone(front + [now])
    ensures var h, before := After(limit, window, front + [now]), After(limit, window, front);
            var r := HitOn(before.deque, limit, window, now).1;
            && h.deque == Since(h.log, now - window as real)
            && r.Answer? && h.answers == before.answers + [r]
            && (r.allowed <==> |Since(before.log, now - window as real)| < limit)
            && r.remaining == limit - |h.deque| && r.limit == limit && (r.allowed ==> r.retryAfter == 0)
  {
    AnswerColumns(After(limit, window, front).deque, limit, window, now);
    hide After, HitOn, Since, EndOf, AllSince, Jitter, Monotone;
    MonotoneIsJitter(front + [now]);
    var h := After(limit, window, front + [now]);
    AfterOne(limit, window, front, now);
    AllowedByWindow(limit, window, 0.0, front, now);
    DequeIsBetween(limit, window, 0.0, front, now);
    EndIsBetween(h.deque, h.log, now - window as real, now - window as real);
  }

  // ----- No window holds too many -----

  /** The allowed hits in the closed interval from `a` to `b`. */
  ghost function Within(log: seq<real>, a: real, b: real): set<int> { set i | 0 <= i < |log| && a <= log[i] <= b }

  /** Over every run whose readings go back by no more than `e`, no closed interval of length
      `window - e` holds more than `limit` allowed hits. */
  lemma {:induction false} NeverMoreThanLimit(limit: int, window: int, e: real, times: seq<real>, a: real)
    requires limit >= 1 && Jitter(times, e)
    ensures |Within(After(limit, window, times).log, a, a + (window as real - e))| <= limit
  {
    var log := After(limit, window, times).log;
    if times != [] { RunIsGood(limit, window, e, times); }
    hide After, HitOn, EndOf, Jitter;
    assert Spaced(log, limit, window as real - e);
    var hits := Within(log, a, a + (window as real - e));
    if some :| some in hits {
      var first := Least(hits, some);
      forall i | i in hits ensures first <= i < first + limit {
        assert !(first + limit <= i);
      }
      RangeSize(hits, first, limit);
    }
  }

  lemma {:induction false} OneAllowed(front: seq<real>, now: real, kept: seq<real>)
    requires Pruned(After(3, 10, front).deque, now - 10.0) == kept && |kept| < 3
    ensures After(3, 10, front + [now]).deque == kept + [now]
    ensures After(3, 10, front + [now]).log == After(3, 10, front).log + [now]
  {
    AfterOne(3, 10, front, now);
    hide After, Pruned;
  }

  lemma OnePruned(q: seq<real>, cutoff: real)
    ensures q == [] || q[0] >= cutoff ==> Pruned(q, cutoff) == q
    ensures |q| == 2 && q[0] < cutoff && q[1] < cutoff ==> Pruned(q, cutoff) == []
  {
    if |q| == 2 && q[0] < cutoff && q[1] < cutoff { assert Pruned(q[1..], cutoff) == Pruned(q[1..][1..], cutoff); }
  }

  lemma {:induction false} FirstHits()
    ensures After(3, 10, [0.0, 0.0]).deque == After(3, 10, [0.0, 0.0]).log == [0.0, 0.0]
  {
    assert After(3, 10, []) == History([], [], []);
    hide After, Pruned;
    OnePruned([], -10.0);
    OneAllowed([], 0.0, []);
    assert [] + [0.0] == [0.0];
    OnePruned([0.0], -10.0);
    OneAllowed([0.0], 0.0, [0.0]);
    assert [0.0] + [0.0] == [0.0, 0.0];
  }

  /** The early hits are dropped by a reading that a slower thread falls behind. */
  lemma {:induction false} OneAhead()
    ensures After(3, 10, [0.0, 0.0, 10.02]).deque == [10.02] && After(3, 10, [0.0, 0.0, 10.02]).log == [0.0, 0.0, 10.02]
  {
    FirstHits();
    hide After, Pruned;
    var b := [0.0, 0.0];
    OnePruned(b, 0.02);
    OneAllowed(b, 10.02, []);
    assert b + [10.02] == [0.0, 0.0, 10.02] && [] + [10.02] == [10.02];
  }

  lemma {:induction false} TwoBehind(c: seq<real>)
    requires After(3, 10, c).deque == [10.02]
    ensures After(3, 10, c + [10.0] + [10.0]).log == After(3, 10, c).log + [10.0] + [10.0]
  {
    hide After, Pruned;
    OnePruned([10.02], 0.0);
    OneAllowed(c, 10.0, [10.02]);
    assert [10.02] + [10.0] == [10.02, 10.0];
    OnePruned([10.02, 10.0], 0.0);
    OneAllowed(c + [10.0], 10.0, [10.02, 10.0]);
  }

  lemma {:induction false} FourWithin(log: seq<real>)
    requires log == [0.0, 0.0, 10.02, 10.0, 10.0]
    ensures Jitter(log, 0.02) && |Within(log, 0.0, 10.0)| == 4
  {
    assert Within(log, 0.0, 10.0) == {0, 1, 3, 4};
  }

  /** The allowance for jitter is needed: with limit 3 and window 10, five hits get the lock
      with readings 0, 0, 10.02, 10 and 10. All are allowed, four of them within [0, 10]. */
  lemma {:induction false} OutOfOrderExceedsLimit()
    ensures var times := [0.0, 0.0, 10.02, 10.0, 10.0];
            Jitter(times, 0.02) && After(3, 10, times).log == times && |Within(times, 0.0, 10.0)| == 4
  {
    hide After, Jitter, Within;
    OneAhead();
    var c: seq<real> := [0.0, 0.0, 10.02];
    TwoBehind(c);
    var times := c + [10.0] + [10.0];
    assert times == [0.0, 0.0, 10.02, 10.0, 10.0];
    FourWithin(times);
  }

  lemma {:induction false} Least(s: set<int>, x: int) returns (m: int)
    requires x in s
    ensures m in s && forall y :: y in s ==> m <= y
  {
    m := x;
    var rest := s - {x};
    assert s == {x} + rest;
    if y :| y in rest {
      var n := Least(rest, y);
      m := if n < x then n else x;
    }
  }

  lemma {:induction false} RangeSize(s: set<int>, from: int, n: nat)
    requires forall x :: x in s ==> from <= x < from + n
    ensures |s| <= n
  {
    if n == 0 {
      assert forall x :: x !in s;
    } else {
      var last := from + n - 1;
      RangeSize(s - {last}, from, n - 1);
      if last in s { assert s == (s - {last}) + {last}; } else { assert s == s - {last}; }
    }
  }

  // ----- Waiting for the answer to change -----

  /** `retry_after` is exact, whatever the jitter of the readings before.  After a rejected
      hit, with no hit in between, a hit at `wait` seconds later is allowed exactly when the
      oldest kept entry has left the window by then, so it is allowed from `retry_after` on
      and rejected up to `retry_after - 1`. */
  lemma {:induction false} RetryAfterIsExact(limit: int, window: int, e: real, front: seq<real>, now: real, wait: real)
    requires limit >= 1 && window >= 0 && Jitter(front + [now], e)
    requires Rejected(After(limit, window, front + [now]))
    ensures var h := After(limit, window, front + [now]);
            var retry, next := h.answers[|h.answers| - 1].retryAfter, HitOn(h.deque, limit, window, now + wait).1;
            && 1 <= retry && retry as real <= window as real + e + 1.0 && next.Answer?
            && (next.allowed <==> h.deque != [] && now + wait > h.deque[0] + window as real)
            && (wait >= retry as real ==> next.allowed)
            && (wait <= (retry - 1) as real ==> !next.allowed)
  {
    hide After, Good, HitOn, Jitter;
    var h := After(limit, window, front + [now]);
    AfterOne(limit, window, front, now);
    var high := HitAfterRun(limit, window, e, front, now);
    RejectedDeque(After(limit, window, front).deque, limit, window, now);
    GoodBounds(h, limit, window, e, high);
    WaitOut(h.deque, limit, window, now + wait);
  }

  lemma GoodBounds(h: History, limit: int, window: int, e: real, high: real)
    requires Good(h, limit, window, e, high)
    ensures |h.deque| <= limit && (h.deque != [] ==> h.deque[0] <= high)
  {
    if h.deque != [] { assert h.deque[0] == h.log[|h.log| - |h.deque|]; }
  }

  ghost predicate Rejected(h: History) {
    h.answers != [] && h.answers[|h.answers| - 1].Answer? && !h.answers[|h.answers| - 1].allowed
  }

  lemma {:induction false} RejectedDeque(q: seq<real>, limit: int, window: int, now: real)
    requires limit >= 1
    ensures var (kept, r) := HitOn(q, limit, window, now);
            r.Answer? && !r.allowed ==>
              && |kept| >= limit && kept[0] >= now - window as real
              && r.retryAfter == (kept[0] + window as real - now).Floor + 1
  {
    PrunedHead(q, now - window as real);
    var kept := Pruned(q, now - window as real);
    if kept != [] { assert (kept[0] + window as real - now).Floor >= 0; }
  }

  lemma {:induction false} WaitOut(q: seq<real>, limit: int, window: int, t: real)
    requires limit >= 1 && |q| == limit
    ensures HitOn(q, limit, window, t).1.Answer?
    ensures HitOn(q, limit, window, t).1.allowed <==> t > q[0] + window as real
  {
    PrunedShorter(q, t - window as real);
  }

  lemma {:induction false} PrunedShorter(q: seq<real>, cutoff: real)
    ensures |Pruned(q, cutoff)| <= |q|
    ensures |Pruned(q, cutoff)| == |q| <==> q == [] || q[0] >= cutoff
  {
    if q != [] && q[0] < cutoff { PrunedShorter(q[1..], cutoff); }
  }

  // ----- Keys do not affect each other -----

  datatype Call = Call(key: string, now: real)

  function AfterCalls(limits: string -> (int, int), calls: seq<Call>): Events {
    if calls == [] then map[]
    else
      var events, c := AfterCalls(limits, calls[..|calls| - 1]), calls[|calls| - 1];
      events[c.key := HitOn(Deque(events, c.key), limits(c.key).0, limits(c.key).1, c.now).0]
  }

  function TimesOf(calls: seq<Call>, key: string): seq<real> {
    if calls == [] then []
    else
      var rest := TimesOf(calls[..|calls| - 1], key);
      if calls[|calls| - 1].key == key then rest + [calls[|calls| - 1].now] else rest
  }

  /** Each key's deque is what its own hits alone would leave, whatever the other keys do. */
  lemma {:induction false} KeysAreIndependent(limits: string -> (int, int), calls: seq<Call>, key: string)
    ensures Deque(AfterCalls(limits, calls), key) == After(limits(key).0, limits(key).1, TimesOf(calls, key)).deque
  {
    if calls != [] {
      var front := calls[..|calls| - 1];
      KeysAreIndependent(limits, front, key);
      if calls[|calls| - 1].key == key {
        var times := TimesOf(calls, key);
        assert times[..|times| - 1] == TimesOf(front, key);
      }
    }
  }

  // ----- Runs of `enforce` -----

  /** One call of `enforce`, with its limit and window. */
  datatype Request = Request(keys: seq<string>, limit: int, window: int, nows: seq<real>)

  /** A run: `hits[i]` keys were hit by request `i`. Every key has its limit and window. */
  ghost predicate EnforceRun(limits: string -> (int, int), states: seq<Events>, requests: seq<Request>,
                             hits: seq<nat>) {
    && |states| == |requests| + 1 && |hits| == |requests| && states[0] == map[]
    && forall i :: 0 <= i < |requests| ==> EnforceStep(limits, states[i], states[i + 1], requests[i], hits[i])
  }

  ghost predicate EnforceStep(limits: string -> (int, int), before: Events, after: Events, r: Request, k: nat) {
    && k <= |r.keys| == |r.nows| && (forall j :: 0 <= j < |r.keys| ==> limits(r.keys[j]) == (r.limit, r.window))
    && after == AfterHits(before, r.keys, r.limit, r.window, r.nows, k)
  }

  function CallsOf(r: Request, k: nat): seq<Call>
    requires k <= |r.keys| == |r.nows|
  {
    seq(k, i requires 0 <= i < k => Call(r.keys[i], r.nows[i]))
  }

  /** All hits of the first `n` requests, in order. */
  ghost function CallsIn(limits: string -> (int, int), states: seq<Events>, requests: seq<Request>, hits: seq<nat>,
                         n: nat): seq<Call>
    requires EnforceRun(limits, states, requests, hits) && n <= |requests|
  {
    if n == 0 then []
    else
      assert EnforceStep(limits, states[n - 1], states[n], requests[n - 1], hits[n - 1]);
      CallsIn(limits, states, requests, hits, n - 1) + CallsOf(requests[n - 1], hits[n - 1])
  }

  lemma OneCallMore(limits: string -> (int, int), calls: seq<Call>, c: Call)
    ensures var events := AfterCalls(limits, calls);
            AfterCalls(limits, calls + [c]) ==
            events[c.key := HitOn(Deque(events, c.key), limits(c.key).0, limits(c.key).1, c.now).0]
  {
    assert (calls + [c])[..|calls|] == calls;
  }

  lemma OneHitMore(events: Events, r: Request, k: nat)
    requires k < |r.keys| == |r.nows|
    ensures var before := AfterHits(events, r.keys, r.limit, r.window, r.nows, k);
            AfterHits(events, r.keys, r.limit, r.window, r.nows, k + 1) ==
            before[r.keys[k] := HitOn(Deque(before, r.keys[k]), r.limit, r.window, r.nows[k]).0]
  {
  }

  lemma {:induction false} HitsAreCalls(limits: string -> (int, int), calls: seq<Call>, r: Request, k: nat)
    requires k <= |r.keys| == |r.nows| && forall j :: 0 <= j < |r.keys| ==> limits(r.keys[j]) == (r.limit, r.window)
    ensures AfterHits(AfterCalls(limits, calls), r.keys, r.limit, r.window, r.nows, k) ==
            AfterCalls(limits, calls + CallsOf(r, k))
  {
    if k == 0 {
      hide AfterCalls;
      assert calls + CallsOf(r, 0) == calls;
    } else {
      hide HitOn, AfterCalls, AfterHits, Deque;
      HitsAreCalls(limits, calls, r, k - 1);
      assert limits(r.keys[k - 1]) == (r.limit, r.window);
      OneHitMore(AfterCalls(limits, calls), r, k - 1);
      OneCallMore(limits, calls + CallsOf(r, k - 1), Call(r.keys[k - 1], r.nows[k - 1]));
      assert calls + CallsOf(r, k) == calls + CallsOf(r, k - 1) + [Call(r.keys[k - 1], r.nows[k - 1])];
    }
  }

  lemma CallsStep(limits: string -> (int, int), states: seq<Events>, requests: seq<Request>, hits: seq<nat>, n: nat)
    requires EnforceRun(limits, states, requests, hits) && 0 < n <= |requests|
    ensures EnforceStep(limits, states[n - 1], states[n], requests[n - 1], hits[n - 1])
    ensures CallsIn(limits, states, requests, hits, n) ==
            CallsIn(limits, states, requests, hits, n - 1) + CallsOf(requests[n - 1], hits[n - 1])
  {
    hide AfterHits;
    assert EnforceStep(limits, states[n - 1], states[n - 1 + 1], requests[n - 1], hits[n - 1]);
  }

  lemma CallsStart(limits: string -> (int, int), states: seq<Events>, requests: seq<Request>, hits: seq<nat>)
    requires EnforceRun(limits, states, requests, hits)
    ensures states[0] == AfterCalls(limits, CallsIn(limits, states, requests, hits, 0))
  {
  }

  lemma {:induction false} EnforceIsCalls(limits: string -> (int, int), states: seq<Events>, requests: seq<Request>,
                                          hits: seq<nat>, n: nat)
    requires EnforceRun(limits, states, requests, hits) && n <= |requests|
    ensures states[n] == AfterCalls(limits, CallsIn(limits, states, requests, hits, n))
  {
    hide AfterCalls, AfterHits, HitOn, CallsIn, CallsOf;
    if n == 0 {
      CallsStart(limits, states, requests, hits);
    } else {
      EnforceIsCalls(limits, states, requests, hits, n - 1);
      CallsStep(limits, states, requests, hits, n);
      HitsAreCalls(limits, CallsIn(limits, states, requests, hits, n - 1), requests[n - 1], hits[n - 1]);
    }
  }

  /** Over every run of `enforce`, each key's deque is that of its own hits, and of these no
      more than its limit are allowed within its window, up to the jitter of their readings. */
  lemma {:induction false} EnforceNeverExceeds(limits: string -> (int, int), states: seq<Events>,
                                               requests: seq<Request>, hits: seq<nat>, n: nat, key: string, e: real,
                                                   a: real)
    requires EnforceRun(limits, states, requests, hits) && n <= |requests|
    requires limits(key).0 >= 1 && Jitter(TimesOf(CallsIn(limits, states, requests, hits, n), key), e)
    ensures var h := After(limits(key).0, limits(key).1, TimesOf(CallsIn(limits, states, requests, hits, n), key));
            && Deque(states[n], key) == h.deque
            && |Within(h.log, a, a + (limits(key).1 as real - e))| <= limits(key).0
  {
    hide After, AfterCalls, AfterHits, Within, Jitter, TimesOf, CallsIn, HitOn, Deque;
    var calls := CallsIn(limits, states, requests, hits, n);
    EnforceIsCalls(limits, states, requests, hits, n);
    KeysAreIndependent(limits, calls, key);
    NeverMoreThanLimit(limits(key).0, limits(key).1, e, TimesOf(calls, key), a);
  }

  function AllowedOf(times: seq<real>, answers: seq<Outcome>): seq<real>
    requires |times| == |answers|
  {
    if times == [] then []
    else
      var n := |times| - 1;
      AllowedOf(times[..n], answers[..n]) + if Passed(answers[n]) then [times[n]] else []
  }

  /** The log is the readings of the hits whose answers were that they are allowed. */
  lemma {:induction false} LogIsAllowed(limit: int, window: int, times: seq<real>)
    ensures var h := After(limit, window, times); |h.answers| == |times| && h.log == AllowedOf(times, h.answers)
  {
    if times != [] {
      var n := |times| - 1;
      LogIsAllowed(limit, window, times[..n]);
      hide HitOn;
      var h, before := After(limit, window, times), After(limit, window, times[..n]);
      assert h.answers[..n] == before.answers;
    }
  }

  /** What a hit answers, as part of any run, is what it answers after its own key's hits alone. */
  lemma {:induction false} AnswersAreOwn(limits: string -> (int, int), calls: seq<Call>, key: string, now: real)
    ensures var h := After(limits(key).0, limits(key).1, TimesOf(calls, key) + [now]);
            h.answers != [] &&
            h.answers[|h.answers| - 1] ==
            HitOn(Deque(AfterCalls(limits, calls), key), limits(key).0, limits(key).1, now).1
  {
    KeysAreIndependent(limits, calls, key);
    AfterOne(limits(key).0, limits(key).1, TimesOf(calls, key), now);
    hide HitOn, After, AfterCalls;
  }
}
