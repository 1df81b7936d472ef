/** Timeline assembly of intelligence/timeline/builder.py.  Times are integers; an event
    whose time is missing is dropped before the sort. */
module Timeline {
  import opened Options
  import opened StableSort

  /** `title` stands for the columns the assembly only carries along. */
  datatype Event = Event(when: Option<int>, kind: string, title: string)

  /** What the queries return for one entity.  `messages` are the container's dated messages
      in the query's order, before its row limit. */
  datatype Source = Source(evidence: seq<Event>, relationships: seq<Event>, isContainer: bool,
                           messages: seq<Event>, account: seq<Event>)

  datatype View = View(events: seq<Event>, truncated: bool)

  const MAX_EVENTS: nat := 500

  function Take<T>(s: seq<T>, n: nat): seq<T> { if |s| <= n then s else s[..n] }

  function When(e: Event): int { if e.when.Some? then e.when.value else 0 }

  function Kept(src: Source, cap: Option<nat>): seq<Event> {
    if !src.isContainer then [] else if cap.Some? then Take(src.messages, cap.value) else src.messages
  }

  /** The events of one entity, with at most `cap` messages when there is a cap. */
  function EventsOf(src: Source, cap: Option<nat>): seq<Event> {
    src.evidence + src.relationships + Kept(src, cap) + src.account
  }

  function Gathered(sources: seq<Source>, cap: Option<nat>): seq<Event> {
    if sources == [] then [] else Gathered(sources[..|sources| - 1], cap) + EventsOf(sources[|sources| - 1], cap)
  }

  function Dated(events: seq<Event>): seq<Event> { Filter(events, (e: Event) => e.when.Some?) }

  /** The whole sorted timeline, from capped or uncapped queries. */
  function Assembled(sources: seq<Source>, cap: Option<nat>): seq<Event> { Sort(Dated(Gathered(sources, cap)), When) }

  /** `_build` with the row limit and the event limit it uses. */
  method Build(sources: seq<Source>) returns (view: View, ghost whole: seq<Event>)
    ensures view.events == Take(Assembled(sources, Some(MAX_EVENTS)), MAX_EVENTS)
    ensures view.truncated <==> |Assembled(sources, Some(MAX_EVENTS))| > MAX_EVENTS
    ensures IsWhole(whole, sources, 500) && view.truncated == (|whole| > 500)
    ensures view.events == if |whole| > 500 then whole[..500] else whole
  {
    var events: seq<Event> := [];
    for i := 0 to |sources|
      invariant events == Gathered(sources[..i], Some(MAX_EVENTS))
    {
      assert sources[..i + 1][..i] == sources[..i];
      var src := sources[i];
      ghost var before := events;
      events := events + src.evidence;
      events := events + src.relationships;
      if src.isContainer { events := events + Take(src.messages, MAX_EVENTS); }
      events := events + src.account;
      assert events == before + EventsOf(src, Some(MAX_EVENTS));
    }
    assert sources[..|sources|] == sources;
    var sorted := Sort(Dated(events), When);
    view := View(Take(sorted, MAX_EVENTS), |sorted| > MAX_EVENTS);
    whole := sorted;
    AssembledIsWhole(sources, MAX_EVENTS);
  }

  /** How often an event comes up in the sources, with at most `n` messages of each container. */
  ghost function Occurrences(sources: seq<Source>, n: nat, x: Event): nat {
    if sources == [] then 0
    else
      var s := sources[|sources| - 1];
      var kept := if !s.isContainer then [] else if |s.messages| <= n then s.messages else s.messages[..n];
      Occurrences(sources[..|sources| - 1], n, x) + multiset(s.evidence)[x] + multiset(s.relationships)[x]
        + multiset(kept)[x] + multiset(s.account)[x]
  }

  /** The whole timeline: every dated event of the sources as often as it comes up there, by time. */
  ghost predicate IsWhole(whole: seq<Event>, sources: seq<Source>, n: nat) {
    && (forall x: Event :: multiset(whole)[x] == if x.when.Some? then Occurrences(sources, n, x) else 0)
    && (forall i, j :: 0 <= i < j < |whole| && whole[i].when.Some? && whole[j].when.Some? ==>
          whole[i].when.value <= whole[j].when.value)
  }

  lemma {:induction false} GatheredOccurs(sources: seq<Source>, n: nat, x: Event)
    ensures multiset(Gathered(sources, Some(n)))[x] == Occurrences(sources, n, x)
  {
    if sources != [] {
      var front, s := sources[..|sources| - 1], sources[|sources| - 1];
      GatheredOccurs(front, n, x);
      assert multiset(EventsOf(s, Some(n)))[x] ==
             multiset(s.evidence)[x] + multiset(s.relationships)[x] +
             multiset(Kept(s, Some(n)))[x] + multiset(s.account)[x];
    }
  }

  lemma {:induction false} DatedOccurs(events: seq<Event>, x: Event)
    ensures multiset(Dated(events))[x] == if x.when.Some? then multiset(events)[x] else 0
  {
    if events != [] {
      DatedOccurs(events[..|events| - 1], x);
      assert events == events[..|events| - 1] + [events[|events| - 1]];
    }
  }

  lemma {:induction false} AssembledIsWhole(sources: seq<Source>, n: nat)
    ensures IsWhole(Assembled(sources, Some(n)), sources, n)
  {
    var d := Dated(Gathered(sources, Some(n)));
    SortPermutes(d, When);
    SortSorts(d, When);
    hide Sort, Gathered, Dated, Occurrences;
    forall x: Event ensures multiset(d)[x] == if x.when.Some? then Occurrences(sources, n, x) else 0 {
      GatheredOccurs(sources, n, x);
      DatedOccurs(Gathered(sources, Some(n)), x);
    }
    var s := Assembled(sources, Some(n));
    forall i, j | 0 <= i < j < |s| && s[i].when.Some? && s[j].when.Some? ensures s[i].when.value <= s[j].when.value {
      assert When(s[i]) <= When(s[j]);
    }
  }

  // ----- The cap per container does not show -----

  /** How many events are dated no later than `v`. */
  function Upto(s: seq<Event>, v: int): nat {
    if s == [] then 0
    else Upto(s[..|s| - 1], v) + One(s[|s| - 1], v)
  }

  function Min(a: int, b: int): int { if a < b then a else b }

  ghost predicate AllDated(s: seq<Event>) { forall i :: 0 <= i < |s| ==> s[i].when.Some? }

  lemma {:induction false} UptoAppend(s: seq<Event>, t: seq<Event>, v: int)
    ensures Upto(s + t, v) == Upto(s, v) + Upto(t, v)
  {
    if t == [] {
      assert s + t == s;
    } else {
      UptoAppend(s, t[..|t| - 1], v);
      assert (s + t)[..|s + t| - 1] == s + t[..|t| - 1];
    }
  }

  lemma {:induction false} UptoDated(s: seq<Event>, v: int)
    ensures Upto(Dated(s), v) == Upto(s, v) && AllDated(Dated(s))
  {
    if s != [] {
      UptoDated(s[..|s| - 1], v);
      var rest, last := Dated(s[..|s| - 1]), s[|s| - 1];
      assert (rest + [last])[..|rest|] == rest;
    }
  }

  function One(e: Event, v: int): nat { if e.when.Some? && e.when.value <= v then 1 else 0 }

  lemma UptoSnoc(s: seq<Event>, x: Event, v: int)
    ensures Upto(s + [x], v) == Upto(s, v) + One(x, v)
  {
    assert (s + [x])[..|s|] == s;
  }

  lemma {:induction false} UptoInsert(x: Event, s: seq<Event>, v: int)
    ensures Upto(Insert(x, s, When), v) == Upto(s, v) + One(x, v)
    decreases |s|
  {
    hide Upto;
    if s != [] && When(s[|s| - 1]) > When(x) {
      UptoInsert(x, s[..|s| - 1], v);
      UptoSnoc(Insert(x, s[..|s| - 1], When), s[|s| - 1], v);
      UptoSnoc(s[..|s| - 1], s[|s| - 1], v);
      assert s == s[..|s| - 1] + [s[|s| - 1]];
    } else {
      UptoSnoc(s, x, v);
      assert s == [] ==> s + [x] == [x];
    }
  }

  lemma {:induction false} InsertDated(x: Event, s: seq<Event>)
    requires AllDated(s) && x.when.Some?
    ensures AllDated(Insert(x, s, When))
    decreases |s|
  {
    if s != [] && When(s[|s| - 1]) > When(x) { InsertDated(x, s[..|s| - 1]); }
  }

  lemma {:induction false} UptoSort(s: seq<Event>, v: int)
    ensures Upto(Sort(s, When), v) == Upto(s, v)
  {
    if s != [] {
      UptoSort(s[..|s| - 1], v);
      UptoInsert(s[|s| - 1], Sort(s[..|s| - 1], When), v);
    }
  }

  lemma {:induction false} SortDated(s: seq<Event>)
    requires AllDated(s)
    ensures AllDated(Sort(s, When))
  {
    if s != [] {
      SortDated(s[..|s| - 1]);
      InsertDated(s[|s| - 1], Sort(s[..|s| - 1], When));
    }
  }

  /** In a sorted timeline, event `i` is dated no later than `v` exactly when more than `i` events are. */
  lemma {:induction false} SortedRank(s: seq<Event>, i: nat, v: int)
    requires Sorted(s, When) && AllDated(s) && i < |s|
    ensures When(s[i]) <= v <==> i < Upto(s, v)
  {
    var front := s[..|s| - 1];
    if i < |s| - 1 {
      SortedRank(front, i, v);
      if Upto(front, v) < Upto(s, v) { UptoAll(front, v); }
    } else if When(s[i]) <= v {
      UptoAll(front, v);
    } else {
      UptoSize(front, v);
    }
  }

  lemma {:induction false} UptoAll(s: seq<Event>, v: int)
    requires AllDated(s) && forall i :: 0 <= i < |s| ==> When(s[i]) <= v
    ensures Upto(s, v) == |s|
  {
    if s != [] { UptoAll(s[..|s| - 1], v); }
  }

  lemma {:induction false} UptoSize(s: seq<Event>, v: int)
    ensures Upto(s, v) <= |s|
  {
    if s != [] { UptoSize(s[..|s| - 1], v); }
  }

  ghost predicate SameUpto(s: seq<Event>, t: seq<Event>, n: nat, v: int) { Min(Upto(s, v), n) == Min(Upto(t, v), n) }

  /** Sorted timelines that agree on the counts up to `n` agree on their first `n` times. */
  lemma {:induction false} CountsGiveTimes(s: seq<Event>, t: seq<Event>, n: nat, i: nat)
    requires Sorted(s, When) && Sorted(t, When) && AllDated(s) && AllDated(t)
    requires forall v :: SameUpto(s, t, n, v)
    requires i < n && i < |s|
    ensures i < |t| && When(t[i]) == When(s[i])
  {
    var v := When(s[i]);
    SortedRank(s, i, v);
    assert SameUpto(s, t, n, v);
    UptoSize(t, v);
    SortedRank(t, i, v);
    var w := When(t[i]);
    SortedRank(t, i, w);
    assert SameUpto(s, t, n, w);
    SortedRank(s, i, w);
  }

  lemma {:induction false} UptoTake(s: seq<Event>, n: nat, v: int)
    requires Sorted(s, When) && AllDated(s)
    ensures Min(Upto(Take(s, n), v), n) == Min(Upto(s, v), n) && Upto(Take(s, n), v) <= n
  {
    if |s| > n {
      UptoAppend(s[..n], s[n..], v);
      assert s == s[..n] + s[n..];
      UptoSize(s[..n], v);
      if Upto(s[..n], v) < n {
        SortedRank(s[..n], n - 1, v);
        UptoNone(s[n..], v);
      }
    } else {
      UptoSize(s, v);
    }
  }

  lemma {:induction false} UptoNone(s: seq<Event>, v: int)
    requires AllDated(s) && forall i :: 0 <= i < |s| ==> When(s[i]) > v
    ensures Upto(s, v) == 0
  {
    if s != [] { UptoNone(s[..|s| - 1], v); }
  }

  /** What the message query promises: dated, oldest first. */
  ghost predicate Ordered(sources: seq<Source>) {
    forall i :: 0 <= i < |sources| ==> Sorted(sources[i].messages, When) && AllDated(sources[i].messages)
  }

  lemma {:induction false} UptoEvents(src: Source, cap: Option<nat>, v: int)
    ensures Upto(EventsOf(src, cap), v) ==
            Upto(src.evidence, v) + Upto(src.relationships, v) + Upto(Kept(src, cap), v) + Upto(src.account, v)
  {
    hide Upto;
    UptoAppend(src.evidence, src.relationships, v);
    UptoAppend(src.evidence + src.relationships, Kept(src, cap), v);
    UptoAppend(src.evidence + src.relationships + Kept(src, cap), src.account, v);
  }

  lemma {:induction false} UptoOne(src: Source, n: nat, v: int)
    requires Sorted(src.messages, When) && AllDated(src.messages)
    ensures Min(Upto(EventsOf(src, Some(n)), v), n) == Min(Upto(EventsOf(src, None), v), n)
  {
    UptoEvents(src, Some(n), v);
    UptoEvents(src, None, v);
    UptoTake(src.messages, n, v);
    hide Upto, EventsOf, Take;
  }

  lemma {:induction false} UptoGathers(sources: seq<Source>, cap: Option<nat>, v: int)
    requires sources != []
    ensures Upto(Gathered(sources, cap), v) ==
            Upto(Gathered(sources[..|sources| - 1], cap), v) + Upto(EventsOf(sources[|sources| - 1], cap), v)
  {
    UptoAppend(Gathered(sources[..|sources| - 1], cap), EventsOf(sources[|sources| - 1], cap), v);
  }

  lemma MinOfSum(a: nat, b: nat, c: nat, d: nat, n: nat)
    requires Min(a, n) == Min(c, n) && Min(b, n) == Min(d, n)
    ensures Min(a + b, n) == Min(c + d, n)
  {
  }

  lemma {:induction false} UptoGathered(sources: seq<Source>, n: nat, v: int)
    requires Ordered(sources)
    ensures Min(Upto(Gathered(sources, Some(n)), v), n) == Min(Upto(Gathered(sources, None), v), n)
  {
    if sources != [] {
      UptoGathers(sources, Some(n), v);
      UptoGathers(sources, None, v);
      hide Upto, Gathered, EventsOf;
      UptoGathered(sources[..|sources| - 1], n, v);
      UptoOne(sources[|sources| - 1], n, v);
      MinOfSum(Upto(Gathered(sources[..|sources| - 1], Some(n)), v), Upto(EventsOf(sources[|sources| - 1], Some(n)), v),
               Upto(Gathered(sources[..|sources| - 1], None), v), Upto(EventsOf(sources[|sources| - 1], None), v), n);
      hide Ordered, Min;
    }
  }

  lemma {:induction false} AssembledCounts(sources: seq<Source>, cap: Option<nat>, v: int)
    ensures Upto(Assembled(sources, cap), v) == Upto(Gathered(sources, cap), v)
    ensures Sorted(Assembled(sources, cap), When) && AllDated(Assembled(sources, cap))
  {
    UptoDated(Gathered(sources, cap), v);
    UptoSort(Dated(Gathered(sources, cap)), v);
    SortDated(Dated(Gathered(sources, cap)));
    SortSorts(Dated(Gathered(sources, cap)), When);
  }

  /** Capping each container at its `n` earliest messages before the merge does not show:
      the first `n` times of the timeline are those of the uncapped merge, for any number
      of containers. */
  lemma {:induction false} CapDoesNotShow(sources: seq<Source>, n: nat)
    requires Ordered(sources)
    ensures var capped, full := Take(Assembled(sources, Some(n)), n), Take(Assembled(sources, None), n);
            |capped| == |full| && forall i :: 0 <= i < |full| ==> When(capped[i]) == When(full[i])
  {
    hide Assembled, SameUpto, Ordered;
    var s, t := Assembled(sources, Some(n)), Assembled(sources, None);
    forall v ensures SameUpto(s, t, n, v) && SameUpto(t, s, n, v) {
      AssembledSame(sources, n, v);
    }
    AssembledCounts(sources, Some(n), 0);
    AssembledCounts(sources, None, 0);
    hide Upto, Sorted, AllDated;
    forall i | 0 <= i < n && i < |s| ensures i < |t| && When(t[i]) == When(s[i]) {
      CountsGiveTimes(s, t, n, i);
    }
    if |s| < n && |s| < |t| { CountsGiveTimes(t, s, n, |s|); }
    if |t| < n && |t| < |s| { CountsGiveTimes(s, t, n, |t|); }
  }

  lemma {:induction false} AssembledSame(sources: seq<Source>, n: nat, v: int)
    requires Ordered(sources)
    ensures SameUpto(Assembled(sources, Some(n)), Assembled(sources, None), n, v)
    ensures SameUpto(Assembled(sources, None), Assembled(sources, Some(n)), n, v)
  {
    hide Assembled, Upto;
    AssembledCounts(sources, Some(n), v);
    AssembledCounts(sources, None, v);
    UptoGathered(sources, n, v);
  }

  // ----- When the truncation flag is wrong -----

  lemma {:induction false} FilterLength<T>(s: seq<T>, t: seq<T>, p: T -> bool)
    ensures |Filter(s + t, p)| == |Filter(s, p)| + |Filter(t, p)|
  {
    if t == [] {
      assert s + t == s;
    } else {
      FilterLength(s, t[..|t| - 1], p);
      assert (s + t)[..|s + t| - 1] == s + t[..|t| - 1];
    }
  }

  function Size(events: seq<Event>): nat { |Dated(events)| }

  lemma SizeAppend(s: seq<Event>, t: seq<Event>)
    ensures Size(s + t) == Size(s) + Size(t)
  {
    FilterLength(s, t, (e: Event) => e.when.Some?);
  }

  lemma SizeOfDated(s: seq<Event>)
    requires AllDated(s)
    ensures Size(s) == |s|
  {
    if s != [] { SizeOfDated(s[..|s| - 1]); }
  }

  predicate Oversized(src: Source, n: nat) { src.isContainer && |src.messages| > n }

  lemma {:induction false} SizeEvents(src: Source, cap: Option<nat>)
    requires AllDated(src.messages)
    ensures Size(EventsOf(src, cap)) == Size(src.evidence + src.relationships) + |Kept(src, cap)| + Size(src.account)
  {
    SizeAppend(src.evidence + src.relationships + Kept(src, cap), src.account);
    SizeAppend(src.evidence + src.relationships, Kept(src, cap));
    SizeOfDated(Kept(src, cap));
  }

  lemma {:induction false} SizeGathers(sources: seq<Source>, cap: Option<nat>)
    requires sources != [] && AllDated(sources[|sources| - 1].messages)
    ensures var last := sources[|sources| - 1];
            Size(Gathered(sources, cap)) == Size(Gathered(sources[..|sources| - 1], cap))
              + Size(last.evidence + last.relationships) + |Kept(last, cap)| + Size(last.account)
  {
    var last := sources[|sources| - 1];
    SizeEvents(last, cap);
    SizeAppend(Gathered(sources[..|sources| - 1], cap), EventsOf(last, cap));
  }

  /** With a cap of `n`: nothing is dropped unless some container is oversized, and
      something is left if anything was there. */
  lemma {:induction false} SizeGathered(sources: seq<Source>, n: nat)
    requires Ordered(sources) && n > 0
    ensures Size(Gathered(sources, Some(n))) <= Size(Gathered(sources, None))
    ensures Size(Gathered(sources, Some(n))) == 0 <==> Size(Gathered(sources, None)) == 0
    ensures Size(Gathered(sources, Some(n))) < Size(Gathered(sources, None)) ==>
              exists i :: 0 <= i < |sources| && Oversized(sources[i], n)
  {
    if sources != [] {
      var front, last := sources[..|sources| - 1], sources[|sources| - 1];
      SizeGathers(sources, Some(n));
      SizeGathers(sources, None);
      hide Size, Gathered;
      SizeGathered(front, n);
      if i :| 0 <= i < |front| && Oversized(front[i], n) { assert Oversized(sources[i], n); }
      assert Oversized(last, n) ==> Oversized(sources[|sources| - 1], n);
    }
  }

  /** An oversized container leaves at least `n` events, and exactly `n` just when it is all there is. */
  lemma {:induction false} SizeWithOversized(sources: seq<Source>, n: nat, i: nat)
    requires Ordered(sources) && n > 0 && i < |sources| && Oversized(sources[i], n)
    ensures n <= Size(Gathered(sources, Some(n))) && |sources[i].messages| <= Size(Gathered(sources, None))
    ensures Size(Gathered(sources, Some(n))) == n <==> Size(Gathered(sources, None)) == |sources[i].messages|
  {
    var front := sources[..|sources| - 1];
    SizeGathers(sources, Some(n));
    SizeGathers(sources, None);
    hide Size, Gathered;
    if i < |front| { SizeWithOversized(front, n, i); } else { SizeGathered(front, n); }
  }

  lemma {:induction false} AssembledSize(sources: seq<Source>, cap: Option<nat>)
    ensures |Assembled(sources, cap)| == Size(Gathered(sources, cap))
  {
    SortPermutes(Dated(Gathered(sources, cap)), When);
    assert |multiset(Assembled(sources, cap))| == |Assembled(sources, cap)|;
    assert |multiset(Dated(Gathered(sources, cap)))| == |Dated(Gathered(sources, cap))|;
  }

  /** The truncation flag, read off the capped events, says whether the timeline has more
      than `n` events, except when one container with more than `n` messages is all there
      is: then events are left out and the flag is not set. */
  lemma {:induction false} FlagIsExactUnlessLone(sources: seq<Source>, n: nat)
    requires Ordered(sources) && n > 0
    ensures (|Assembled(sources, Some(n))| > n <==> |Assembled(sources, None)| > n) <==>
            !exists i :: 0 <= i < |sources| && Oversized(sources[i], n) &&
                |Assembled(sources, None)| == |sources[i].messages|
  {
    hide Assembled, Size, Ordered, Gathered;
    SizeGathered(sources, n);
    AssembledSize(sources, Some(n));
    AssembledSize(sources, None);
    forall i | 0 <= i < |sources| && Oversized(sources[i], n)
      ensures n <= Size(Gathered(sources, Some(n))) && |sources[i].messages| <= Size(Gathered(sources, None))
      ensures Size(Gathered(sources, Some(n))) == n <==> Size(Gathered(sources, None)) == |sources[i].messages|
    {
      SizeWithOversized(sources, n, i);
    }
  }

  /** A container with `k` messages and nothing else. */
  function Lone(k: nat): Source {
    Source([], [], true, seq(k, i requires 0 <= i < k => Event(Some(i), "message", "")), [])
  }

  /** It happens: for a container with one message too many and nothing else, the flag is
      not set and the last message is left out. */
  lemma {:induction false} FlagMissesLone(n: nat)
    requires n > 0
    ensures Ordered([Lone(n + 1)])
    ensures |Assembled([Lone(n + 1)], Some(n))| == n && |Assembled([Lone(n + 1)], None)| == n + 1
  {
    var src := Lone(n + 1);
    LoneSize(src, Some(n));
    LoneSize(src, None);
  }

  lemma {:induction false} LoneSize(src: Source, cap: Option<nat>)
    requires AllDated(src.messages) && src.evidence == src.relationships == src.account == []
    ensures |Assembled([src], cap)| == |Kept(src, cap)|
  {
    AssembledSize([src], cap);
    SizeGathers([src], cap);
    assert [src][..0] == [];
    assert Gathered([src][..0], cap) == [];
    assert Size([]) == 0 && src.evidence + src.relationships == [];
  }

  // ----- Grouping by year -----

  /** `by_year`: the years in order of first appearance, and the events of each. */
  datatype Years = Years(order: seq<int>, groups: map<int, seq<Event>>)

  function Added(y: Years, e: Event, year: int): Years {
    if year in y.groups then y.(groups := y.groups[year := y.groups[year] + [e]])
    else Years(y.order + [year], y.groups[year := [e]])
  }

  function ByYear(events: seq<Event>, yearOf: int -> int): Years {
    if events == [] then Years([], map[])
    else Added(ByYear(events[..|events| - 1], yearOf), events[|events| - 1], yearOf(When(events[|events| - 1])))
  }

  method GroupByYear(events: seq<Event>, yearOf: int -> int) returns (y: Years)
    ensures y == ByYear(events, yearOf)
  {
    var order: seq<int>, groups: map<int, seq<Event>> := [], map[];
    for i := 0 to |events|
      invariant Years(order, groups) == ByYear(events[..i], yearOf)
    {
      assert events[..i + 1][..i] == events[..i];
      var year := yearOf(When(events[i]));
      var group := if year in groups then groups[year] else [];
      if year !in groups { order := order + [year]; }
      groups := groups[year := group + [events[i]]];
      assert [] + [events[i]] == [events[i]];
    }
    assert events[..|events|] == events;
    y := Years(order, groups);
  }

  /** The groups one after another. */
  function Flattened(order: seq<int>, groups: map<int, seq<Event>>): seq<Event>
    requires forall i :: 0 <= i < |order| ==> order[i] in groups
  {
    if order == [] then []
    else Flattened(order[..|order| - 1], groups) + groups[order[|order| - 1]]
  }

  ghost predicate Contains(order: seq<int>, year: int) { exists i :: 0 <= i < |order| && order[i] == year }

  ghost predicate Grouped(y: Years) {
    && (forall i :: 0 <= i < |y.order| ==> y.order[i] in y.groups)
    && (forall k :: k in y.groups ==> Contains(y.order, k))
  }

  lemma {:induction false} FlattenedElsewhere(order: seq<int>, groups: map<int, seq<Event>>, year: int, g: seq<Event>)
    requires forall i :: 0 <= i < |order| ==> order[i] in groups && order[i] != year
    ensures Flattened(order, groups[year := g]) == Flattened(order, groups)
  {
    if order != [] { FlattenedElsewhere(order[..|order| - 1], groups, year, g); }
  }

  ghost predicate Ascending(order: seq<int>) { forall i, j :: 0 <= i < j < |order| ==> order[i] < order[j] }

  /** The years so far ascend, and the last is `last`. */
  ghost predicate Upwards(y: Years, last: int) {
    Grouped(y) && Ascending(y.order) && y.order != [] && y.order[|y.order| - 1] == last
  }

  lemma ContainsMore(order: seq<int>, year: int, k: int)
    ensures Contains(order + [year], k) <==> Contains(order, k) || k == year
  {
    if Contains(order, k) {
      var i :| 0 <= i < |order| && order[i] == k;
      assert (order + [year])[i] == k;
    }
    assert (order + [year])[|order|] == year;
  }

  lemma {:induction false} KnownYear(y: Years, last: int, year: int)
    requires Upwards(y, last) && last <= year
    ensures year in y.groups <==> year == last
  {
    if year in y.groups {
      assert Contains(y.order, year);
      var i :| 0 <= i < |y.order| && y.order[i] == year;
      assert !(i < |y.order| - 1);
    }
  }

  lemma {:induction false} AddGrouped(y: Years, e: Event, year: int)
    requires Grouped(y)
    ensures Grouped(Added(y, e, year))
  {
    forall k ensures Contains(y.order + [year], k) <==> Contains(y.order, k) || k == year {
      ContainsMore(y.order, year, k);
    }
    hide Contains;
  }

  lemma {:induction false} AddUpwards(y: Years, e: Event, last: int, year: int)
    requires Upwards(y, last) && last <= year
    ensures Upwards(Added(y, e, year), year) && (year in y.groups <==> year == last)
  {
    KnownYear(y, last, year);
    AddGrouped(y, e, year);
    hide Grouped;
  }

  lemma {:induction false} AddFlattens(y: Years, e: Event, last: int, year: int)
    requires Upwards(y, last) && last <= year
    requires Upwards(Added(y, e, year), year) && (year in y.groups <==> year == last)
    ensures Flattened(Added(y, e, year).order, Added(y, e, year).groups) == Flattened(y.order, y.groups) + [e]
  {
    if year == last {
      FlattenedElsewhere(y.order[..|y.order| - 1], y.groups, year, y.groups[year] + [e]);
    } else {
      FlattenedElsewhere(y.order, y.groups, year, [e]);
      assert Added(y, e, year).order[..|y.order|] == y.order;
    }
  }

  lemma {:induction false} OneYear(e: Event, year: int)
    ensures var y := Years([year], map[year := [e]]); Upwards(y, year) && Flattened(y.order, y.groups) == [e]
  {
    var y := Years([year], map[year := [e]]);
    assert y.order[0] == year && Contains(y.order, year);
    assert y.order[..0] == [];
    assert Flattened(y.order[..0], y.groups) == [];
    assert Flattened(y.order, y.groups) == [] + [e];
  }

  lemma {:induction false} FirstYear(e: Event, yearOf: int -> int)
    ensures var y := ByYear([e], yearOf); Upwards(y, yearOf(When(e))) && Flattened(y.order, y.groups) == [e]
  {
    var year := yearOf(When(e));
    OneYear(e, year);
    hide Upwards, Flattened;
    assert [e][..0] == [];
    assert ByYear([e][..0], yearOf) == Years([], map[]);
    assert ByYear([e], yearOf) == Added(Years([], map[]), e, year);
    assert [] + [year] == [year];
  }

  /** For a sorted timeline, with years that follow the times, the groups one after another
      are the timeline: grouping loses nothing and keeps the order. */
  lemma {:induction false} YearsFlattenBack(events: seq<Event>, yearOf: int -> int)
    requires Sorted(events, When) && (forall a, b :: a <= b ==> yearOf(a) <= yearOf(b)) && events != []
    ensures var y := ByYear(events, yearOf);
            Upwards(y, yearOf(When(events[|events| - 1]))) && Flattened(y.order, y.groups) == events
  {
    var front, e := events[..|events| - 1], events[|events| - 1];
    assert events == front + [e];
    if front == [] {
      FirstYear(e, yearOf);
    } else {
      YearsFlattenBack(front, yearOf);
      hide Flattened, Upwards, Added;
      AddUpwards(ByYear(front, yearOf), e, yearOf(When(front[|front| - 1])), yearOf(When(e)));
      AddFlattens(ByYear(front, yearOf), e, yearOf(When(front[|front| - 1])), yearOf(When(e)));
    }
  }

  /** Every group holds the events of its year, in order. */
  lemma {:induction false} GroupsAreYears(events: seq<Event>, yearOf: int -> int, year: int)
    ensures var y := ByYear(events, yearOf);
            if year in y.groups then y.groups[year] == Filter(events, (e: Event) => yearOf(When(e)) == year)
            else Filter(events, (e: Event) => yearOf(When(e)) == year) == []
  {
    if events != [] { GroupsAreYears(events[..|events| - 1], yearOf, year); }
  }
}
