/** Indicator extraction: which pattern hits become matches, and the deduplication of the
    matches. The pattern hits, and the normalised values, are inputs. */
module Ioc {
  import opened Options
  import opened StableSort
  import opened Text
  import Ipv6

  /** In the order of the values they have as strings. */
  datatype IocType =
    Cve | Domain | Email | Ipv4 | Ipv6 | Md5 | Sha1 | Sha256 | TelegramUrl | TelegramUsername | Url

  function Rank(kind: IocType): nat {
    match kind
    case Cve => 0 case Domain => 1 case Email => 2 case Ipv4 => 3 case Ipv6 => 4 case Md5 => 5
    case Sha1 => 6 case Sha256 => 7 case TelegramUrl => 8 case TelegramUsername => 9 case Url => 10
  }

  /** `origin` is the kind of the hit that a derived match comes from. */
  datatype Match = Match(kind: IocType, value: string, normalized: string, start: nat, end: nat,
      origin: Option<IocType>)

  datatype Key = Key(kind: IocType, normalized: string)

  function KeyOf(m: Match): Key { Key(m.kind, m.normalized) }

  // ----- Scanning -----

  /** A pattern hit. `norm` is `None` where normalising raises ValueError; `plausible` is the
      extra test of the domain and IPv6 patterns; `derived` is the domain or handle inside a
      URL or an email address, value and normalised value. */
  datatype Hit = Hit(value: string, norm: Option<string>, start: nat, end: nat, plausible: bool,
      derived: Option<(string, string)>)

  type Hits = IocType -> seq<Hit>

  datatype Span = Span(start: nat, end: nat)

  /** The patterns in the order they are scanned for. */
  function Stages(): (s: seq<IocType>)
    ensures |s| == 11
  {
    [Url, TelegramUrl, Email, Sha256, Sha1, Md5, Cve, Ipv4, Ipv6, Domain, TelegramUsername]
  }

  function StageOf(kind: IocType): nat {
    match kind
    case Url => 0 case TelegramUrl => 1 case Email => 2 case Sha256 => 3 case Sha1 => 4 case Md5 => 5
    case Cve => 6 case Ipv4 => 7 case Ipv6 => 8 case Domain => 9 case TelegramUsername => 10
  }

  /** Kinds whose span is covered from then on. */
  predicate Owning(kind: IocType) { StageOf(kind) <= 5 }

  /** Kinds whose hits are skipped where they start inside a covered span. */
  predicate Gated(kind: IocType) { kind !in {Url, TelegramUrl, Cve} }

  /** Kinds with an extra test. */
  predicate Tested(kind: IocType) { kind in {Ipv6, Domain} }

  datatype State = State(matches: seq<Match>, covered: seq<Span>)

  predicate Inside(pos: nat, spans: seq<Span>) {
    exists i :: 0 <= i < |spans| && spans[i].start <= pos < spans[i].end
  }

  predicate KnownDomain(matches: seq<Match>, normalized: string) {
    exists i :: 0 <= i < |matches| && KeyOf(matches[i]) == Key(Domain, normalized)
  }

  function Found(kind: IocType, h: Hit): Match
    requires h.norm.Some?
  {
    Match(kind, h.value, h.norm.value, h.start, h.end, None)
  }

  function Derived(kind: IocType, h: Hit): seq<Match> {
    if StageOf(kind) > 2 || h.derived.None? then []
    else [Match(if kind == TelegramUrl then TelegramUsername else Domain, h.derived.value.0, h.derived.value.1,
        h.start, h.end, Some(kind))]
  }

  predicate Skipped(st: State, kind: IocType, h: Hit) {
    (Gated(kind) && Inside(h.start, st.covered)) || (Tested(kind) && !h.plausible)
  }

  /** One hit: skipped, or a ValueError (`None`), or a new match and perhaps a derived one. */
  function Step(st: State, kind: IocType, h: Hit): Option<State> {
    if Skipped(st, kind, h) then Some(st)
    else if h.norm.None? then (if kind == Ipv4 then Some(st) else None)
    else if kind == Domain && KnownDomain(st.matches, h.norm.value) then Some(st)
    else Some(State(st.matches + [Found(kind, h)] + Derived(kind, h),
                    if Owning(kind) then st.covered + [Span(h.start, h.end)] else st.covered))
  }

  function Scanned(st: State, kind: IocType, hits: seq<Hit>): Option<State> {
    if hits == [] then Some(st)
    else match Scanned(st, kind, hits[..|hits| - 1])
         case None => None
         case Some(t) => Step(t, kind, hits[|hits| - 1])
  }

  /** After the first `k` stages. */
  function Collected(hits: Hits, k: nat): Option<State>
    requires k <= 11
  {
    if k == 0 then Some(State([], []))
    else match Collected(hits, k - 1)
         case None => None
         case Some(st) => Scanned(st, Stages()[k - 1], hits(Stages()[k - 1]))
  }

  /** After all stages. */
  function Extracted(hits: Hits): Option<State> { Collected(hits, |Stages()|) }

  // ----- Deduplication -----

  /** Sort key (start, -length) in a text of length `n`. */
  function Earliest(n: nat): Match -> int { (m: Match) => Scaled(m.start, n + 1) + (n - (m.end - m.start)) }

  function Scaled(start: nat, width: nat): nat { start * width }

  /** Sort key (start, type). */
  function Position(): Match -> int { (m: Match) => m.start * 11 + Rank(m.kind) }

  function HasKey(k: Key): Match -> bool { (m: Match) => KeyOf(m) == k }

  predicate Has(s: seq<Match>, k: Key) { exists i :: 0 <= i < |s| && KeyOf(s[i]) == k }

  /** The first match of each key. */
  function Firsts(s: seq<Match>): seq<Match> {
    if s == [] then []
    else
      var f := Firsts(s[..|s| - 1]);
      if Has(f, KeyOf(s[|s| - 1])) then f else f + [s[|s| - 1]]
  }

  function Deduped(matches: seq<Match>, n: nat): seq<Match> { Sort(Firsts(Sort(matches, Earliest(n))), Position()) }

  /** `_dedupe`: the dictionary keeps the first match set for a key and its insertion order. */
  method Dedupe(matches: seq<Match>, n: nat) returns (r: seq<Match>)
    ensures r == Deduped(matches, n)
  {
    var sorted := Sort(matches, Earliest(n));
    var seen: set<Key>, values: seq<Match> := {}, [];
    for i := 0 to |sorted|
      invariant values == Firsts(sorted[..i])
      invariant forall k :: k in seen <==> Has(values, k)
    {
      assert sorted[..i + 1][..i] == sorted[..i];
      var m := sorted[i];
      if KeyOf(m) !in seen {
        ghost var before := values;
        seen, values := seen + {KeyOf(m)}, values + [m];
        forall k ensures k in seen <==> Has(values, k) { HasAppend(before, m, k); }
      }
    }
    assert sorted[..|sorted|] == sorted;
    r := Sort(values, Position());
  }

  lemma HasAppend(s: seq<Match>, m: Match, k: Key)
    ensures Has(s + [m], k) <==> Has(s, k) || KeyOf(m) == k
  {
    if Has(s, k) {
      var i :| 0 <= i < |s| && KeyOf(s[i]) == k;
      assert KeyOf((s + [m])[i]) == k;
    }
    assert (s + [m])[|s|] == m;
  }

  /** `extract_iocs` after refanging a text of length `n`. */
  method ExtractIocs(hits: Hits, n: nat) returns (r: Option<seq<Match>>)
    ensures r == match Extracted(hits) case None => None case Some(st) => Some(Deduped(st.matches, n))
  {
    var matches: seq<Match>, covered: seq<Span> := [], [];
    for k := 0 to |Stages()|
      invariant Collected(hits, k) == Some(State(matches, covered))
    {
      var kind := Stages()[k];
      ghost var st := State(matches, covered);
      var found := hits(kind);
      for i := 0 to |found|
        invariant Scanned(st, kind, found[..i]) == Some(State(matches, covered))
      {
        assert found[..i + 1][..i] == found[..i];
        var h := found[i];
        if Gated(kind) && Inside(h.start, covered) { continue; }
        if Tested(kind) && !h.plausible { continue; }
        if h.norm.None? {
          if kind == Ipv4 { continue; }
          RaisesForGood(hits, k, st, i);
          return None;
        }
        if kind == Domain && KnownDomain(matches, h.norm.value) { continue; }
        matches := matches + [Found(kind, h)] + Derived(kind, h);
        if Owning(kind) { covered := covered + [Span(h.start, h.end)]; }
      }
      assert found[..|found|] == found;
    }
    var out := Dedupe(matches, n);
    r := Some(out);
  }

  lemma {:induction false} ScanRaises(st: State, kind: IocType, found: seq<Hit>, i: nat)
    requires i <= |found| && Scanned(st, kind, found[..i]).None?
    ensures Scanned(st, kind, found).None?
    decreases |found| - i
  {
    if i == |found| {
      assert found[..i] == found;
    } else {
      assert found[..i + 1][..i] == found[..i];
      ScanRaises(st, kind, found, i + 1);
    }
  }

  lemma {:induction false} CollectRaises(hits: Hits, k: nat)
    requires k <= 11 && Collected(hits, k).None?
    ensures Extracted(hits).None?
    decreases |Stages()| - k
  {
    if k < |Stages()| { CollectRaises(hits, k + 1); }
  }

  lemma {:induction false} RaisesForGood(hits: Hits, k: nat, st: State, i: nat)
    requires k < 11 && Collected(hits, k) == Some(st) && i < |hits(Stages()[k])|
    requires Scanned(st, Stages()[k], hits(Stages()[k])[..i + 1]).None?
    ensures Extracted(hits).None?
  {
    ScanRaises(st, Stages()[k], hits(Stages()[k]), i + 1);
    CollectRaises(hits, k + 1);
  }

  // ----- What is emitted -----

  /** `m` covers `pos`. */
  predicate OwnsAt(m: Match, pos: nat) { m.origin.None? && Owning(m.kind) && m.start <= pos < m.end }

  ghost predicate Owned(ms: seq<Match>, pos: nat) { exists i :: 0 <= i < |ms| && OwnsAt(ms[i], pos) }

  /** Match `i`, where of a gated kind, starts inside no span covered before it. */
  ghost predicate FreeAt(ms: seq<Match>, i: nat)
    requires i < |ms|
  {
    ms[i].origin.None? && Gated(ms[i].kind) ==> !Owned(ms[..i], ms[i].start)
  }

  ghost predicate NestFree(ms: seq<Match>) { forall i :: 0 <= i < |ms| ==> FreeAt(ms, i) }

  ghost predicate CoveredIsOwned(st: State) { forall pos: nat :: Inside(pos, st.covered) <==> Owned(st.matches, pos) }

  ghost predicate StagesAscend(ms: seq<Match>, stage: nat) {
    && (forall i :: 0 <= i < |ms| && ms[i].origin.None? ==> StageOf(ms[i].kind) <= stage)
    && (forall i, j :: 0 <= i < j < |ms| && ms[i].origin.None? && ms[j].origin.None? ==>
       StageOf(ms[i].kind) <= StageOf(ms[j].kind))
  }

  ghost predicate Inv(st: State, stage: nat) {
    CoveredIsOwned(st) && NestFree(st.matches) && StagesAscend(st.matches, stage)
  }

  lemma {:induction false} OwnedAppend(ms: seq<Match>, m: Match, pos: nat)
    ensures Owned(ms + [m], pos) <==> Owned(ms, pos) || OwnsAt(m, pos)
  {
    if Owned(ms, pos) {
      var i :| 0 <= i < |ms| && OwnsAt(ms[i], pos);
      assert OwnsAt((ms + [m])[i], pos);
    }
    assert (ms + [m])[|ms|] == m;
  }

  lemma {:induction false} InsideAppend(spans: seq<Span>, s: Span, pos: nat)
    ensures Inside(pos, spans + [s]) <==> Inside(pos, spans) || s.start <= pos < s.end
  {
    var more := spans + [s];
    if Inside(pos, spans) {
      var i :| 0 <= i < |spans| && spans[i].start <= pos < spans[i].end;
      assert more[i].start <= pos < more[i].end;
    }
    assert more[|spans|] == s;
  }

  lemma {:induction false} AppendNestFree(ms: seq<Match>, m: Match)
    requires NestFree(ms) && (m.origin.None? && Gated(m.kind) ==> !Owned(ms, m.start))
    ensures NestFree(ms + [m])
  {
    var more := ms + [m];
    hide Owned, OwnsAt, Gated;
    forall i | 0 <= i < |more| ensures FreeAt(more, i) {
      if i < |ms| {
        assert FreeAt(ms, i) && more[..i] == ms[..i];
      } else {
        assert more[..i] == ms;
      }
    }
  }

  /** Adding a match of the current stage, or a derived one. */
  lemma {:induction false} AddKeepsInv(st: State, m: Match, stage: nat)
    requires Inv(st, stage) && (m.origin.None? ==> StageOf(m.kind) == stage)
    requires m.origin.None? && Gated(m.kind) ==> !Inside(m.start, st.covered)
    ensures var owns := m.origin.None? && Owning(m.kind);
            Inv(State(st.matches + [m], if owns then st.covered + [Span(m.start, m.end)] else st.covered), stage)
  {
    AppendNestFree(st.matches, m);
    forall pos: nat ensures Owned(st.matches + [m], pos) <==> Owned(st.matches, pos) || OwnsAt(m, pos) {
      OwnedAppend(st.matches, m, pos);
    }
    var covers := st.covered + [Span(m.start, m.end)];
    forall pos: nat ensures Inside(pos, covers) <==> Inside(pos, st.covered) || m.start <= pos < m.end {
      InsideAppend(st.covered, Span(m.start, m.end), pos);
    }
    hide Owned, Inside, NestFree, Gated;
  }

  lemma {:induction false} StepKeepsInv(st: State, kind: IocType, h: Hit)
    requires Inv(st, StageOf(kind)) && Step(st, kind, h).Some?
    ensures Inv(Step(st, kind, h).value, StageOf(kind))
  {
    var t := Step(st, kind, h).value;
    if t != st {
      var m := Found(kind, h);
      AddKeepsInv(st, m, StageOf(kind));
      var mid := State(st.matches + [m], t.covered);
      if Derived(kind, h) != [] {
        AddKeepsInv(mid, Derived(kind, h)[0], StageOf(kind));
        hide Inv;
        assert t.matches == mid.matches + [Derived(kind, h)[0]];
      } else {
        hide Inv;
        assert t.matches == mid.matches;
      }
    }
  }

  lemma {:induction false} ScanKeepsInv(st: State, kind: IocType, hits: seq<Hit>)
    requires Inv(st, StageOf(kind)) && Scanned(st, kind, hits).Some?
    ensures Inv(Scanned(st, kind, hits).value, StageOf(kind))
  {
    hide Inv, Step;
    if hits != [] {
      ScanKeepsInv(st, kind, hits[..|hits| - 1]);
      StepKeepsInv(Scanned(st, kind, hits[..|hits| - 1]).value, kind, hits[|hits| - 1]);
    }
  }

  lemma StageAt(k: nat)
    requires k < 11
    ensures StageOf(Stages()[k]) == k
  {
  }

  lemma StagesMove(ms: seq<Match>, stage: nat)
    requires StagesAscend(ms, stage)
    ensures StagesAscend(ms, stage + 1)
  {
  }

  /** What every stage keeps. */
  lemma {:induction false} CollectedInv(hits: Hits, k: nat)
    requires k <= 11 && Collected(hits, k).Some?
    ensures Inv(Collected(hits, k).value, k)
  {
    hide Scanned, StageOf, Stages;
    if k > 0 {
      CollectedInv(hits, k - 1);
      StageAt(k - 1);
      ScanKeepsInv(Collected(hits, k - 1).value, Stages()[k - 1], hits(Stages()[k - 1]));
      StagesMove(Collected(hits, k).value.matches, k - 1);
    }
  }

  // ----- Every hit is accounted for -----

  ghost predicate Emitted(ms: seq<Match>, m: Match) { exists i :: 0 <= i < |ms| && ms[i] == m }

  /** The hit is among the matches, or it was skipped for one of the reasons there are. */
  ghost predicate Accounted(ms: seq<Match>, kind: IocType, h: Hit) {
    || (Tested(kind) && !h.plausible)
    || (kind == Ipv4 && h.norm.None?)
    || (Gated(kind) && Owned(ms, h.start))
    || (h.norm.Some? && Emitted(ms, Found(kind, h)) && (Derived(kind, h) != [] ==> Emitted(ms, Derived(kind, h)[0])))
    || (h.norm.Some? && kind == Domain && KnownDomain(ms, h.norm.value))
  }

  lemma EmittedLater(ms: seq<Match>, extra: seq<Match>, m: Match)
    requires Emitted(ms, m)
    ensures Emitted(ms + extra, m)
  {
    var i :| 0 <= i < |ms| && ms[i] == m;
    assert (ms + extra)[i] == m;
  }

  lemma {:induction false} AccountedLater(ms: seq<Match>, extra: seq<Match>, kind: IocType, h: Hit)
    requires Accounted(ms, kind, h)
    ensures Accounted(ms + extra, kind, h)
  {
    var more := ms + extra;
    if Owned(ms, h.start) {
      var i :| 0 <= i < |ms| && OwnsAt(ms[i], h.start);
      assert OwnsAt(more[i], h.start);
    }
    if h.norm.Some? && Emitted(ms, Found(kind, h)) { EmittedLater(ms, extra, Found(kind, h)); }
    if Derived(kind, h) != [] && Emitted(ms, Derived(kind, h)[0]) { EmittedLater(ms, extra, Derived(kind, h)[0]); }
    hide Emitted, Derived;
    if h.norm.Some? && KnownDomain(ms, h.norm.value) {
      var i :| 0 <= i < |ms| && KeyOf(ms[i]) == Key(Domain, h.norm.value);
      assert KeyOf(more[i]) == Key(Domain, h.norm.value);
    }
  }

  ghost predicate Extends(s: seq<Match>, t: seq<Match>) { |s| <= |t| && t[..|s|] == s }

  lemma ExtendsOn(s: seq<Match>, t: seq<Match>, u: seq<Match>)
    requires Extends(s, t) && Extends(t, u)
    ensures Extends(s, u)
  {
    assert u[..|s|] == t[..|s|];
  }

  lemma {:induction false} StaysAccounted(s: seq<Match>, t: seq<Match>, kind: IocType, h: Hit)
    requires Extends(s, t) && Accounted(s, kind, h)
    ensures Accounted(t, kind, h)
  {
    AccountedLater(s, t[|s|..], kind, h);
    hide Accounted;
    assert t == s + t[|s|..];
  }

  lemma {:induction false} StepAccounts(st: State, kind: IocType, h: Hit)
    requires CoveredIsOwned(st) && Step(st, kind, h).Some?
    ensures var ms := Step(st, kind, h).value.matches; Extends(st.matches, ms) && Accounted(ms, kind, h)
  {
    var ms := Step(st, kind, h).value.matches;
    if ms != st.matches {
      assert ms[|st.matches|] == Found(kind, h);
      assert Emitted(ms, Found(kind, h));
      if Derived(kind, h) != [] {
        assert ms[|st.matches| + 1] == Derived(kind, h)[0];
        assert Emitted(ms, Derived(kind, h)[0]);
      }
    }
  }

  lemma {:induction false} ScanAccounts(st: State, kind: IocType, hits: seq<Hit>)
    requires Inv(st, StageOf(kind)) && Scanned(st, kind, hits).Some?
    ensures var ms := Scanned(st, kind, hits).value.matches;
            Extends(st.matches, ms) && forall i :: 0 <= i < |hits| ==> Accounted(ms, kind, hits[i])
  {
    hide Accounted, Step, StageOf, NestFree, CoveredIsOwned, StagesAscend, Extends;
    var ms := Scanned(st, kind, hits).value.matches;
    if hits == [] {
      assert Extends(ms, ms) by { ExtendsSelf(ms); }
    } else {
      var front, last := hits[..|hits| - 1], hits[|hits| - 1];
      var t := Scanned(st, kind, front).value;
      ScanAccounts(st, kind, front);
      ScanKeepsInv(st, kind, front);
      StepAccounts(t, kind, last);
      ExtendsOn(st.matches, t.matches, ms);
      forall i | 0 <= i < |hits| ensures Accounted(ms, kind, hits[i]) {
        if i < |front| {
          assert hits[i] == front[i];
          StaysAccounted(t.matches, ms, kind, hits[i]);
        }
      }
    }
  }

  lemma ExtendsSelf(s: seq<Match>)
    ensures Extends(s, s)
  {
  }

  lemma {:induction false} CollectAccounts(hits: Hits, k: nat, stage: nat, i: nat)
    requires stage < k <= 11 && Collected(hits, k).Some? && i < |hits(Stages()[stage])|
    ensures Accounted(Collected(hits, k).value.matches, Stages()[stage], hits(Stages()[stage])[i])
  {
    hide Accounted, Scanned, Stages, StageOf, Extends, Inv;
    var st := Collected(hits, k - 1).value;
    var kind := Stages()[k - 1];
    CollectedInv(hits, k - 1);
    StageAt(k - 1);
    ScanAccounts(st, kind, hits(kind));
    if stage < k - 1 {
      CollectAccounts(hits, k - 1, stage, i);
      StaysAccounted(st.matches, Collected(hits, k).value.matches, Stages()[stage], hits(Stages()[stage])[i]);
    }
  }

  // ----- Every match comes from a hit -----

  /** Addresses and domains must be plausible. */
  ghost predicate Plausible(kind: IocType, h: Hit) { kind.Ipv6? || kind.Domain? ==> h.plausible }

  ghost predicate FromHit(m: Match, hits: Hits) {
    exists i :: 0 <= i < |hits(HitKind(m))| && hits(HitKind(m))[i].norm.Some? &&
                Plausible(HitKind(m), hits(HitKind(m))[i]) &&
                m in [Found(HitKind(m), hits(HitKind(m))[i])] + Derived(HitKind(m), hits(HitKind(m))[i])
  }

  /** The kind of the hit behind a match. */
  function HitKind(m: Match): IocType { if m.origin.Some? then m.origin.value else m.kind }

  ghost predicate AllFromHits(ms: seq<Match>, hits: Hits) { forall i :: 0 <= i < |ms| ==> FromHit(ms[i], hits) }

  lemma {:induction false} StepFromHits(st: State, kind: IocType, i: nat, hits: Hits)
    requires AllFromHits(st.matches, hits) && i < |hits(kind)| && Step(st, kind, hits(kind)[i]).Some?
    ensures AllFromHits(Step(st, kind, hits(kind)[i]).value.matches, hits)
  {
    var h := hits(kind)[i];
    var ms := Step(st, kind, h).value.matches;
    forall j | 0 <= j < |ms| ensures FromHit(ms[j], hits) {
      if j >= |st.matches| {
        assert ms[j] == ([Found(kind, h)] + Derived(kind, h))[j - |st.matches|];
        assert HitKind(ms[j]) == kind;
      } else {
        assert ms[j] == st.matches[j];
      }
    }
  }

  lemma {:induction false} ScanFromHits(st: State, kind: IocType, k: nat, hits: Hits)
    requires AllFromHits(st.matches, hits) && k <= |hits(kind)| && Scanned(st, kind, hits(kind)[..k]).Some?
    ensures AllFromHits(Scanned(st, kind, hits(kind)[..k]).value.matches, hits)
  {
    hide AllFromHits, Step;
    if k > 0 {
      assert hits(kind)[..k][..k - 1] == hits(kind)[..k - 1];
      ScanFromHits(st, kind, k - 1, hits);
      StepFromHits(Scanned(st, kind, hits(kind)[..k - 1]).value, kind, k - 1, hits);
    }
  }

  lemma {:induction false} CollectFromHits(hits: Hits, k: nat)
    requires k <= 11 && Collected(hits, k).Some?
    ensures AllFromHits(Collected(hits, k).value.matches, hits)
  {
    hide FromHit, Scanned, Stages;
    if k > 0 {
      CollectFromHits(hits, k - 1);
      var kind := Stages()[k - 1];
      assert hits(kind)[..|hits(kind)|] == hits(kind);
      ScanFromHits(Collected(hits, k - 1).value, kind, |hits(kind)|, hits);
    }
  }

  // ----- When extraction raises -----

  /** A hit that takes the scan down. */
  predicate Fatal(h: Hit) { h.norm.None? && h.plausible }

  lemma {:induction false} CoveredStays(st: State, kind: IocType, hits: seq<Hit>)
    requires !Owning(kind) && Scanned(st, kind, hits).Some?
    ensures Scanned(st, kind, hits).value.covered == st.covered
  {
    if hits != [] { CoveredStays(st, kind, hits[..|hits| - 1]); }
  }

  lemma {:induction false} NormalisedScans(st: State, kind: IocType, hits: seq<Hit>)
    requires kind == Ipv4 || forall i :: 0 <= i < |hits| ==> hits[i].norm.Some?
    ensures Scanned(st, kind, hits).Some?
  {
    if hits != [] { NormalisedScans(st, kind, hits[..|hits| - 1]); }
  }

  lemma {:induction false} LinksScan(st: State, kind: IocType, hits: seq<Hit>)
    requires kind in {Url, TelegramUrl}
    ensures Scanned(st, kind, hits).Some? <==> forall i :: 0 <= i < |hits| ==> hits[i].norm.Some?
  {
    if hits != [] { LinksScan(st, kind, hits[..|hits| - 1]); }
  }

  lemma {:induction false} Ipv6Scans(st: State, hits: seq<Hit>)
    ensures Scanned(st, Ipv6, hits).Some? <==>
            forall i :: 0 <= i < |hits| && Fatal(hits[i]) ==> Inside(hits[i].start, st.covered)
  {
    if hits != [] {
      var front := hits[..|hits| - 1];
      Ipv6Scans(st, front);
      if Scanned(st, Ipv6, front).Some? { CoveredStays(st, Ipv6, front); }
      hide Inside;
      assert forall i :: 0 <= i < |front| ==> hits[i] == front[i];
    }
  }

  /** A stage whose hits always normalise neither raises nor, past the hashes, covers more. */
  lemma {:induction false} CalmStage(hits: Hits, k: nat)
    requires k < 11 && Stages()[k] !in {Url, TelegramUrl, Ipv6}
    requires Stages()[k] == Ipv4 || AllNormalise(hits(Stages()[k]))
    ensures Collected(hits, k + 1).Some? <==> Collected(hits, k).Some?
    ensures Collected(hits, k + 1).Some? && k >= 6 ==>
            Collected(hits, k + 1).value.covered == Collected(hits, k).value.covered
  {
    var kind := Stages()[k];
    if Collected(hits, k).Some? {
      var st := Collected(hits, k).value;
      NormalisedScans(st, kind, hits(kind));
      StageAt(k);
      if k >= 6 { CoveredStays(st, kind, hits(kind)); }
    }
  }

  ghost predicate AllNormalise(hits: seq<Hit>) { forall i :: 0 <= i < |hits| ==> hits[i].norm.Some? }

  /** An IPv6 hit outside the covered spans that passes its test but does not normalise. */
  ghost predicate BadIpv6(hits: seq<Hit>, covered: seq<Span>) {
    exists i :: 0 <= i < |hits| && Fatal(hits[i]) && !Inside(hits[i].start, covered)
  }

  lemma {:induction false} LinkStages(hits: Hits)
    ensures Collected(hits, 2).Some? <==> AllNormalise(hits(Url)) && AllNormalise(hits(TelegramUrl))
  {
    hide Scanned;
    assert Stages()[0] == Url && Stages()[1] == TelegramUrl;
    assert Collected(hits, 0) == Some(State([], []));
    LinksScan(State([], []), Url, hits(Url));
    if Collected(hits, 1).Some? { LinksScan(Collected(hits, 1).value, TelegramUrl, hits(TelegramUrl)); }
    assert Collected(hits, 1) == Scanned(State([], []), Url, hits(Url));
  }

  /** The spans that links, emails and hashes cover. */
  function OwnedSpans(hits: Hits): seq<Span> {
    match Collected(hits, 6) case None => [] case Some(st) => st.covered
  }

  lemma {:induction false} Ipv6Stage(hits: Hits)
    ensures Collected(hits, 9).Some? <==>
            (Collected(hits, 8).Some? && !BadIpv6(hits(Ipv6), Collected(hits, 8).value.covered))
  {
    hide Scanned;
    assert Stages()[8] == Ipv6;
    if Collected(hits, 8).Some? { Ipv6Scans(Collected(hits, 8).value, hits(Ipv6)); }
  }

  /** Where only links and addresses can fail to normalise, extraction raises exactly when a
      link does, or an IPv6 hit that was let through. */
  lemma {:induction false} RaisesExactly(hits: Hits)
    requires forall kind :: kind in {Url, TelegramUrl, Ipv4, Ipv6} || AllNormalise(hits(kind))
    ensures Extracted(hits).None? <==>
            || !AllNormalise(hits(Url))
            || !AllNormalise(hits(TelegramUrl))
            || BadIpv6(hits(Ipv6), OwnedSpans(hits))
  {
    hide Scanned, AllNormalise, Collected, BadIpv6;
    LinkStages(hits);
    assert Stages() == [Url, TelegramUrl, Email, Sha256, Sha1, Md5, Cve, Ipv4, Ipv6, Domain, TelegramUsername];
    hide Stages;
    CalmStage(hits, 2); CalmStage(hits, 3); CalmStage(hits, 4); CalmStage(hits, 5);
    CalmStage(hits, 6); CalmStage(hits, 7); CalmStage(hits, 9); CalmStage(hits, 10);
    Ipv6Stage(hits);
  }

  /** What an IPv6 hit's text says: it passes its test when it is an address, and normalises
      when what is left of it without outer colons is one. */
  ghost predicate ReadsAddress(h: Hit) {
    && All(h.value, Ipv6.IsHexOrColon)
    && (h.plausible <==> Ipv6.IsValid(h.value))
    && (h.norm.Some? <==> Ipv6.IsValid(Ipv6.StripColons(h.value)))
  }

  /** What follows the first `://`. */
  function AfterScheme(v: string): string {
    if |v| < 3 then v else if v[..3] == "://" then v[3..] else AfterScheme(v[1..])
  }

  /** The host part has an opening bracket without a closing one, or the reverse: urlsplit
      raises ValueError. */
  predicate Unbalanced(v: string) {
    var netloc := Until(AfterScheme(v), {'/', '?', '#'});
    HasAny(netloc, {'['}) != HasAny(netloc, {']'})
  }

  ghost predicate ReadsUrl(h: Hit) { Unbalanced(h.value) ==> h.norm.None? }

  /** The hits are read off their texts; the other normalisers do not raise, and that of IPv4
      addresses is caught. */
  ghost predicate FromText(hits: Hits) {
    && (forall i :: 0 <= i < |hits(Url)| ==> ReadsUrl(hits(Url)[i]))
    && (forall i :: 0 <= i < |hits(Ipv6)| ==> ReadsAddress(hits(Ipv6)[i]))
    && (forall kind :: kind in {Url, Ipv4, Ipv6} || AllNormalise(hits(kind)))
  }

  /** An address that begins or ends with `::`, outside the covered spans. */
  ghost predicate OuterGap(h: Hit, covered: seq<Span>) {
    Ipv6.IsValid(h.value) && !Ipv6.Bare(h.value) && !Inside(h.start, covered)
  }

  lemma {:induction false} FatalIsOuterGap(h: Hit)
    requires ReadsAddress(h)
    ensures Fatal(h) <==> Ipv6.IsValid(h.value) && !Ipv6.Bare(h.value)
  {
    if Ipv6.IsValid(h.value) { Ipv6.StripInvalidates(h.value); }
    hide Ipv6.IsValid, Ipv6.Bare, Ipv6.StripColons, All;
  }

  /** Read off the text, extraction raises exactly when a URL does not normalise or an address
      outside the covered spans begins or ends with `::`. */
  lemma {:induction false} RaisesByText(hits: Hits)
    requires FromText(hits)
    ensures Extracted(hits).None? <==>
            !AllNormalise(hits(Url)) || exists i :: 0 <= i < |hits(Ipv6)| && OuterGap(hits(Ipv6)[i], OwnedSpans(hits))
  {
    hide Extracted, OwnedSpans, Inside, ReadsAddress, ReadsUrl;
    RaisesExactly(hits);
    forall i | 0 <= i < |hits(Ipv6)|
      ensures OuterGap(hits(Ipv6)[i], OwnedSpans(hits)) <==>
              (Fatal(hits(Ipv6)[i]) && !Inside(hits(Ipv6)[i].start, OwnedSpans(hits)))
    {
      FatalIsOuterGap(hits(Ipv6)[i]);
    }
    hide OuterGap, Fatal;
  }

  /** The URL pattern stops before a closing bracket, so a URL with a bracketed address is hit
      up to the address, its host part is unbalanced, and extraction raises. */
  lemma {:induction false} BracketedUrlRaises(hits: Hits, i: nat, scheme: string, rest: string)
    requires FromText(hits) && i < |hits(Url)| && hits(Url)[i].value == scheme + "://[" + rest
    requires IsFree(scheme, ':') && IsFree(rest, ']')
    ensures Extracted(hits).None?
  {
    OpenBracket(scheme, rest);
    hide Extracted, ReadsAddress, OuterGap, Unbalanced;
    assert ReadsUrl(hits(Url)[i]);
    RaisesByText(hits);
  }

  lemma {:induction false} OpenBracket(scheme: string, rest: string)
    requires IsFree(scheme, ':') && IsFree(rest, ']')
    ensures Unbalanced(scheme + "://[" + rest)
  {
    var tail := "[" + rest;
    assert scheme + "://[" + rest == scheme + "://" + tail;
    SchemeEnds(scheme, tail);
    var netloc := Until(tail, {'/', '?', '#'});
    UntilIsPrefix(tail, {'/', '?', '#'});
    assert netloc[0] == '[';
    forall i | 0 <= i < |netloc| ensures netloc[i] != ']' {
      assert netloc[i] == tail[i];
      assert i > 0 ==> tail[i] == rest[i - 1];
    }
    hide AfterScheme, Until;
  }

  lemma {:induction false} SchemeEnds(scheme: string, tail: string)
    requires IsFree(scheme, ':')
    ensures AfterScheme(scheme + "://" + tail) == tail
  {
    var v := scheme + "://" + tail;
    if scheme == "" {
      assert v[..3] == "://" && v[3..] == tail;
    } else {
      assert v[0] == scheme[0] && v[..3][0] == v[0];
      assert v[1..] == scheme[1..] + "://" + tail;
      SchemeEnds(scheme[1..], tail);
    }
  }

  lemma {:induction false} UntilIsPrefix(s: string, stops: set<char>)
    ensures var r := Until(s, stops);
            (forall i :: 0 <= i < |r| ==> r[i] == s[i]) && (s != "" && s[0] !in stops ==> r != "")
  {
    if s != "" && s[0] !in stops { UntilIsPrefix(s[1..], stops); }
  }

  /** The hit that the IPv6 pattern makes of an address at `start`, with what it normalises to
      if it does. */
  function AddressHit(value: string, start: nat, canonical: string): Hit {
    Hit(value, if Ipv6.IsValid(Ipv6.StripColons(value)) then Some(canonical) else None,
        start, start + |value|, Ipv6.IsValid(value), None)
  }

  /** One group of digits and `::` takes the whole extraction down: it is a valid address, but
      what is normalised is the group alone, with the colons stripped, which is not. */
  lemma {:induction false} GroupAndGapRaises(g: string, canonical: string)
    requires Ipv6.IsGroup(g)
    ensures Extracted((kind: IocType) => if kind == Ipv6 then [AddressHit(g + "::", 0, canonical)] else []).None?
  {
    var h := AddressHit(g + "::", 0, canonical);
    var hits: Hits := (kind: IocType) => if kind == Ipv6 then [h] else [];
    GapIsOuter(g, canonical);
    hide OuterGap, ReadsAddress, Extracted;
    assert AllNormalise([]);
    assert FromText(hits);
    NothingYet(hits, 6);
    hide Collected;
    assert OuterGap(hits(Ipv6)[0], OwnedSpans(hits));
    RaisesByText(hits);
  }

  lemma {:induction false} GapIsOuter(g: string, canonical: string)
    requires Ipv6.IsGroup(g)
    ensures var h := AddressHit(g + "::", 0, canonical); ReadsAddress(h) && OuterGap(h, [])
  {
    Ipv6.GroupAndGap(g);
    assert All(g + "::", Ipv6.IsHexOrColon);
    hide Ipv6.IsValid, Ipv6.Bare, Ipv6.StripColons, Ipv6.IsGroup, All;
  }

  /** So a single `fe80::` does. */
  lemma {:induction false} Ipv6WithTrailingColonsRaises(canonical: string)
    ensures Extracted((kind: IocType) => if kind == Ipv6 then [AddressHit("fe80" + "::", 0, canonical)] else []).None?
  {
    assert Ipv6.IsGroup("fe80");
    hide Extracted, Ipv6.IsGroup;
    GroupAndGapRaises("fe80", canonical);
  }

  /** The hit that the URL pattern makes of a text at `start`, with what it normalises to if
      it does. */
  function UrlHit(value: string, start: nat, canonical: string): Hit {
    Hit(value, if Unbalanced(value) then None else Some(canonical), start, start + |value|, true, None)
  }

  /** And so does `http://[::1]/`, which is hit up to the closing bracket. */
  lemma {:induction false} AddressUrlRaises(canonical: string)
    ensures var h := UrlHit("http" + "://[" + "::1", 0, canonical);
            Extracted((kind: IocType) => if kind == Url then [h] else []).None?
  {
    var h := UrlHit("http" + "://[" + "::1", 0, canonical);
    var hits: Hits := (kind: IocType) => if kind == Url then [h] else [];
    hide Extracted, Unbalanced;
    assert ReadsUrl(h) && AllNormalise([]);
    assert FromText(hits);
    BracketedUrlRaises(hits, 0, "http", "::1");
  }

  lemma {:induction false} NothingYet(hits: Hits, k: nat)
    requires k <= 6 && forall kind :: Owning(kind) ==> hits(kind) == []
    ensures Collected(hits, k) == Some(State([], []))
  {
    if k > 0 {
      NothingYet(hits, k - 1);
      StageAt(k - 1);
    }
  }

  // ----- What deduplication keeps -----

  lemma {:induction false} HasFilter(s: seq<Match>, k: Key)
    ensures Has(s, k) <==> Filter(s, HasKey(k)) != []
  {
    if s != [] {
      var front, last := s[..|s| - 1], s[|s| - 1];
      HasFilter(front, k);
      HasAppend(front, last, k);
      assert s == front + [last];
    }
  }

  function Head<T>(s: seq<T>): seq<T> { if s == [] then [] else [s[0]] }

  lemma {:induction false} FirstsOfKey(s: seq<Match>, k: Key)
    ensures Filter(Firsts(s), HasKey(k)) == Head(Filter(s, HasKey(k)))
  {
    if s != [] {
      var front, last := s[..|s| - 1], s[|s| - 1];
      FirstsOfKey(front, k);
      HasFilter(Firsts(front), KeyOf(last));
      FilterAppend(Firsts(front), last, HasKey(k));
    }
  }

  lemma {:induction false} FirstsAtMost(s: seq<Match>, key: Match -> int, k: int)
    requires AllAtMost(s, key, k)
    ensures AllAtMost(Firsts(s), key, k)
  {
    if s != [] { FirstsAtMost(s[..|s| - 1], key, k); }
  }

  lemma {:induction false} FirstsSorted(s: seq<Match>, key: Match -> int)
    requires Sorted(s, key)
    ensures Sorted(Firsts(s), key)
  {
    hide Has;
    if s != [] {
      FirstsSorted(s[..|s| - 1], key);
      FirstsAtMost(s[..|s| - 1], key, key(s[|s| - 1]));
    }
  }

  lemma {:induction false} OneIsSorted<T>(s: seq<T>, key: T -> int)
    requires |s| <= 1
    ensures Sort(s, key) == s
  {
    SortedIsFixed(s, key);
  }

  /** Of each key, deduplication keeps the head of the sorted matches of that key. */
  lemma {:induction false} DedupedOfKey(ms: seq<Match>, n: nat, k: Key)
    ensures Filter(Deduped(ms, n), HasKey(k)) == Head(Sort(Filter(ms, HasKey(k)), Earliest(n)))
  {
    hide Sort, Firsts, Filter;
    SortFilter(Firsts(Sort(ms, Earliest(n))), HasKey(k), Position());
    FirstsOfKey(Sort(ms, Earliest(n)), k);
    SortFilter(ms, HasKey(k), Earliest(n));
    OneIsSorted(Head(Sort(Filter(ms, HasKey(k)), Earliest(n))), Position());
  }

  lemma {:induction false} HeadOfInsert<T>(x: T, s: seq<T>, key: T -> int)
    requires Sorted(s, key)
    ensures Insert(x, s, key) != []
    ensures Insert(x, s, key)[0] == if s == [] || key(x) < key(s[0]) then x else s[0]
    decreases |s|
  {
    if s != [] && key(s[|s| - 1]) > key(x) { HeadOfInsert(x, s[..|s| - 1], key); }
  }

  /** Match `j` is the first by `key`, then by emission, of those with key `k`. */
  ghost predicate Foremost(ms: seq<Match>, j: nat, k: Key, key: Match -> int)
    requires j < |ms|
  {
    && KeyOf(ms[j]) == k
    && forall i :: 0 <= i < |ms| && KeyOf(ms[i]) == k ==>
       key(ms[j]) < key(ms[i]) || (key(ms[j]) == key(ms[i]) && j <= i)
  }

  lemma {:induction false} FilterSnoc(ms: seq<Match>, k: Key, key: Match -> int)
    requires ms != []
    ensures var front, last := ms[..|ms| - 1], ms[|ms| - 1];
            var s := Sort(Filter(front, HasKey(k)), key);
            && (Has(ms, k) <==> Has(front, k) || KeyOf(last) == k)
            && (Has(front, k) <==> s != [])
            && Head(Sort(Filter(ms, HasKey(k)), key)) ==
               if KeyOf(last) == k && (s == [] || key(last) < key(s[0])) then [last] else Head(s)
  {
    var front, last := ms[..|ms| - 1], ms[|ms| - 1];
    var f := Filter(front, HasKey(k));
    assert ms == front + [last];
    HasAppend(front, last, k);
    HasFilter(front, k);
    SortSorts(f, key);
    SortIsEmpty(f, key);
    if KeyOf(last) == k {
      assert Filter(ms, HasKey(k)) == f + [last];
      assert (f + [last])[..|f|] == f;
      HeadOfInsert(last, Sort(f, key), key);
    }
  }

  lemma {:induction false} SortIsEmpty<T>(s: seq<T>, key: T -> int)
    ensures Sort(s, key) == [] <==> s == []
  {
    SortPermutes(s, key);
    assert |multiset(s)| == |s| && |multiset(Sort(s, key))| == |Sort(s, key)|;
  }

  lemma {:induction false} HeadIsForemost(ms: seq<Match>, k: Key, key: Match -> int) returns (j: nat)
    requires Has(ms, k)
    ensures j < |ms| && Foremost(ms, j, k, key) && Head(Sort(Filter(ms, HasKey(k)), key)) == [ms[j]]
  {
    NotEmpty(ms, k);
    hide Has, Filter, Sort;
    var front, last := ms[..|ms| - 1], ms[|ms| - 1];
    FilterSnoc(ms, k, key);
    if Has(front, k) {
      j := HeadIsForemost(front, k, key);
      if KeyOf(last) == k && key(last) < key(front[j]) { j := |front|; }
    } else {
      NoneHas(front, k);
      j := |front|;
    }
  }

  lemma NotEmpty(ms: seq<Match>, k: Key)
    ensures Has(ms, k) ==> ms != []
  {
  }

  lemma NoneHas(ms: seq<Match>, k: Key)
    requires !Has(ms, k)
    ensures forall i :: 0 <= i < |ms| ==> KeyOf(ms[i]) != k
  {
  }

  /** `a` starts earlier than `b`, or at the same place and is longer. */
  predicate Prefers(a: Match, b: Match) {
    a.start < b.start || (a.start == b.start && a.end - a.start > b.end - b.start)
  }

  /** The spans of pattern hits lie in the text. */
  ghost predicate InText(ms: seq<Match>, n: nat) { forall i :: 0 <= i < |ms| ==> ms[i].start <= ms[i].end <= n }

  lemma {:induction false} EarliestIsLexicographic(a: Match, b: Match, n: nat)
    requires a.start <= a.end <= n && b.start <= b.end <= n
    ensures Earliest(n)(a) < Earliest(n)(b) <==> Prefers(a, b)
  {
    if a.start < b.start { Gap(a.start, b.start, n + 1); }
    if b.start < a.start { Gap(b.start, a.start, n + 1); }
    hide Scaled;
  }

  lemma {:induction false} Gap(a: nat, b: nat, w: nat)
    requires a < b
    ensures Scaled(a, w) + w <= Scaled(b, w)
  {
    if a + 1 < b { Gap(a, b - 1, w); }
    assert Scaled(b, w) == Scaled(b - 1, w) + w;
  }

  /** Deduplication keeps exactly one match of every key there is: the one that starts
      earliest, then is longest, then was emitted first. */
  lemma {:induction false} OnePerKey(ms: seq<Match>, n: nat, k: Key) returns (j: nat)
    requires InText(ms, n) && Has(ms, k)
    ensures j < |ms| && KeyOf(ms[j]) == k && Filter(Deduped(ms, n), HasKey(k)) == [ms[j]]
    ensures forall i :: 0 <= i < |ms| && KeyOf(ms[i]) == k ==>
            Prefers(ms[j], ms[i]) || (!Prefers(ms[i], ms[j]) && j <= i)
  {
    DedupedOfKey(ms, n, k);
    j := HeadIsForemost(ms, k, Earliest(n));
    hide Deduped, Prefers, Earliest;
    forall i | 0 <= i < |ms| && KeyOf(ms[i]) == k ensures Prefers(ms[j], ms[i]) || (!Prefers(ms[i], ms[j]) && j <= i) {
      EarliestIsLexicographic(ms[j], ms[i], n);
      EarliestIsLexicographic(ms[i], ms[j], n);
    }
  }

  /** Nothing else is kept, and the order is by start, then by type. */
  lemma {:induction false} DedupedInOrder(ms: seq<Match>, n: nat)
    ensures forall k :: !Has(ms, k) ==> !Has(Deduped(ms, n), k)
    ensures var d := Deduped(ms, n);
            forall i, j :: 0 <= i < j < |d| ==>
              d[i].start < d[j].start || (d[i].start == d[j].start && Rank(d[i].kind) <= Rank(d[j].kind))
  {
    forall k | !Has(ms, k) ensures !Has(Deduped(ms, n), k) {
      HasFilter(ms, k);
      HasFilter(Deduped(ms, n), k);
      DedupedOfKey(ms, n, k);
    }
    SortSorts(Firsts(Sort(ms, Earliest(n))), Position());
    hide Sort, Firsts, Has;
    var d := Deduped(ms, n);
    forall i, j | 0 <= i < j < |d|
      ensures d[i].start < d[j].start || (d[i].start == d[j].start && Rank(d[i].kind) <= Rank(d[j].kind))
    {
      assert Position()(d[i]) <= Position()(d[j]);
    }
  }

  // ----- Deduplication is idempotent -----

  lemma {:induction false} DistinctAreFirsts(s: seq<Match>)
    requires forall k :: |Filter(s, HasKey(k))| <= 1
    ensures Firsts(s) == s
  {
    if s != [] {
      var front, last := s[..|s| - 1], s[|s| - 1];
      forall k ensures |Filter(front, HasKey(k))| <= 1 { assert |Filter(s, HasKey(k))| <= 1; }
      DistinctAreFirsts(front);
      assert |Filter(s, HasKey(KeyOf(last)))| <= 1;
      HasFilter(front, KeyOf(last));
      assert s == front + [last];
    }
  }

  lemma {:induction false} ResortedIsFirsts(ms: seq<Match>, n: nat)
    ensures var s := Sort(Deduped(ms, n), Earliest(n)); Firsts(s) == s
  {
    var s := Sort(Deduped(ms, n), Earliest(n));
    hide Deduped, Sort, Filter, Firsts;
    forall k ensures |Filter(s, HasKey(k))| <= 1 {
      SortFilter(Deduped(ms, n), HasKey(k), Earliest(n));
      DedupedOfKey(ms, n, k);
      OneIsSorted(Filter(Deduped(ms, n), HasKey(k)), Earliest(n));
    }
    DistinctAreFirsts(s);
  }

  /** Among matches of one start and type, the output is already in (start, -length) order. */
  lemma {:induction false} ClassIsEarliest(ms: seq<Match>, n: nat, c: int)
    ensures var d := Deduped(ms, n); Class(Sort(d, Earliest(n)), Position(), c) == Class(d, Position(), c)
  {
    var d, f := Deduped(ms, n), Firsts(Sort(ms, Earliest(n)));
    SortSorts(ms, Earliest(n));
    FirstsSorted(Sort(ms, Earliest(n)), Earliest(n));
    SortIsStable(f, Position(), c);
    hide Sort, Firsts, Class;
    ClassSorted(f, Position(), c, Earliest(n));
    ClassSort(d, Position(), c, Earliest(n));
    SortedIsFixed(Class(d, Position(), c), Earliest(n));
  }

  /** Deduplicating what is deduplicated changes nothing. */
  lemma {:induction false} DedupeIsIdempotent(ms: seq<Match>, n: nat)
    ensures Deduped(Deduped(ms, n), n) == Deduped(ms, n)
  {
    var d := Deduped(ms, n);
    var s := Sort(d, Earliest(n));
    ResortedIsFirsts(ms, n);
    SortSorts(s, Position());
    SortSorts(Firsts(Sort(ms, Earliest(n))), Position());
    var e := Sort(s, Position());
    assert Deduped(d, n) == e;
    assert Sorted(d, Position());
    hide Deduped, Sort, Firsts, Class;
    forall c ensures Class(e, Position(), c) == Class(d, Position(), c) {
      ClassIsEarliest(ms, n, c);
      SortIsStable(s, Position(), c);
    }
    SortedIsUnique(e, d, Position());
  }

  // ----- The result of extraction -----

  lemma {:induction false} DedupedFrom(ms: seq<Match>, n: nat, i: nat) returns (j: nat)
    requires i < |Deduped(ms, n)|
    ensures j < |ms| && ms[j] == Deduped(ms, n)[i]
  {
    var m := Deduped(ms, n)[i];
    var s := Sort(ms, Earliest(n));
    SortPermutes(Firsts(s), Position());
    SortPermutes(ms, Earliest(n));
    assert m in multiset(Deduped(ms, n));
    assert m in Firsts(s);
    FirstsAreIn(s, m);
    assert m in multiset(s);
    assert m in ms;
    j :| 0 <= j < |ms| && ms[j] == m;
  }

  lemma {:induction false} FirstsAreIn(s: seq<Match>, m: Match)
    requires m in Firsts(s)
    ensures m in s
  {
    if s != [] && m != s[|s| - 1] { FirstsAreIn(s[..|s| - 1], m); }
  }

  /** In the result, for any pattern hits, no email, hash, address, bare domain or handle
      starts inside a link, email or hash that was scanned for before it. */
  lemma {:induction false} NothingNests(hits: Hits, n: nat, out: seq<Match>, a: nat, b: nat)
    requires Extracted(hits).Some? && out == Deduped(Extracted(hits).value.matches, n)
    requires a < |out| && b < |out| && out[b].origin.None? && Gated(out[b].kind) &&
             StageOf(out[a].kind) < StageOf(out[b].kind)
    ensures !OwnsAt(out[a], out[b].start)
  {
    var ms := Extracted(hits).value.matches;
    CollectedInv(hits, |Stages()|);
    var i := DedupedFrom(ms, n, a);
    var j := DedupedFrom(ms, n, b);
    hide Deduped, Collected;
    assert FreeAt(ms, j);
    if i < j { assert ms[..j][i] == ms[i]; }
  }

  // ----- The results of the scan, written out -----

  /** A link, mail address or hash whose span holds the position. */
  ghost predicate Covers(m: Match, pos: nat) {
    && m.origin == None && m.start <= pos < m.end
    && (m.kind.Url? || m.kind.TelegramUrl? || m.kind.Email? || m.kind.Sha256? || m.kind.Sha1? || m.kind.Md5?)
  }

  /** The match of a hit, and the domain or handle inside a link or mail address. */
  ghost predicate Brings(ms: seq<Match>, kind: IocType, h: Hit) {
    && h.norm.Some? && Emitted(ms, Match(kind, h.value, h.norm.value, h.start, h.end, None))
    && (h.derived.Some? ==>
          && (kind.Url? || kind.Email? ==>
                Emitted(ms, Match(Domain, h.derived.value.0, h.derived.value.1, h.start, h.end, Some(kind))))
          && (kind.TelegramUrl? ==>
                Emitted(ms, Match(TelegramUsername, h.derived.value.0, h.derived.value.1, h.start, h.end, Some(kind)))))
  }

  /** Why a hit may bring nothing: it is an implausible IPv6 address or domain, an IPv4 address
      that does not normalise, a domain that is already there, or, unless it is a link or a CVE,
      it starts inside a link, mail address or hash. */
  ghost predicate Excused(ms: seq<Match>, kind: IocType, h: Hit) {
    || ((kind.Ipv6? || kind.Domain?) && !h.plausible)
    || (kind.Ipv4? && h.norm == None)
    || (kind.Domain? && h.norm.Some? &&
        exists i :: 0 <= i < |ms| && ms[i].kind == Domain && ms[i].normalized == h.norm.value)
    || (!kind.Url? && !kind.TelegramUrl? && !kind.Cve? && exists i :: 0 <= i < |ms| && Covers(ms[i], h.start))
  }

  lemma KindHasStage(kind: IocType)
    ensures StageOf(kind) < 11 && Stages()[StageOf(kind)] == kind
  {
  }

  /** Every hit of every pattern brings its matches or is excused. */
  lemma {:induction false} EveryHitCounts(hits: Hits, kind: IocType, i: nat)
    requires Extracted(hits).Some? && i < |hits(kind)|
    ensures var ms, h := Extracted(hits).value.matches, hits(kind)[i];
            Brings(ms, kind, h) || Excused(ms, kind, h)
  {
    var ms, h := Extracted(hits).value.matches, hits(kind)[i];
    KindHasStage(kind);
    CollectAccounts(hits, |Stages()|, StageOf(kind), i);
    hide Stages, Collected, StageOf;
    AccountedWritten(ms, kind, h);
  }

  lemma {:induction false} AccountedWritten(ms: seq<Match>, kind: IocType, h: Hit)
    requires Accounted(ms, kind, h)
    ensures Brings(ms, kind, h) || Excused(ms, kind, h)
  {
    forall i | 0 <= i < |ms| && OwnsAt(ms[i], h.start) ensures Covers(ms[i], h.start) {}
    hide Emitted;
    if Owned(ms, h.start) {
      var i :| 0 <= i < |ms| && OwnsAt(ms[i], h.start);
      assert Covers(ms[i], h.start);
    }
    if h.norm.Some? && KnownDomain(ms, h.norm.value) {
      var i :| 0 <= i < |ms| && KeyOf(ms[i]) == Key(Domain, h.norm.value);
      assert ms[i].kind == Domain && ms[i].normalized == h.norm.value;
    }
  }

  /** And every match is one that a hit brings. */
  lemma {:induction false} EveryMatchIsBrought(hits: Hits, j: nat)
    requires Extracted(hits).Some? && j < |Extracted(hits).value.matches|
    ensures var m := Extracted(hits).value.matches[j];
            if m.origin == None
            then exists i :: 0 <= i < |hits(m.kind)| && hits(m.kind)[i].norm == Some(m.normalized) &&
                             Plausible(m.kind, hits(m.kind)[i]) && IsHit(m, hits(m.kind)[i].value, hits(m.kind)[i])
            else
              && (m.origin.value.Url? || m.origin.value.Email? ==> m.kind == Domain)
              && (m.origin.value.TelegramUrl? ==> m.kind == TelegramUsername)
              && (m.origin.value.Url? || m.origin.value.Email? || m.origin.value.TelegramUrl?)
              && var found := hits(m.origin.value);
                 exists i :: 0 <= i < |found| && found[i].derived == Some((m.value, m.normalized)) &&
                             IsHit(m, m.value, found[i])
  {
    var m := Extracted(hits).value.matches[j];
    CollectFromHits(hits, |Stages()|);
    hide Collected;
    assert FromHit(m, hits);
    var kind := HitKind(m);
    var i :| 0 <= i < |hits(kind)| && hits(kind)[i].norm.Some? && Plausible(kind, hits(kind)[i]) &&
        m in [Found(kind, hits(kind)[i])] + Derived(kind, hits(kind)[i]);
    assert m == Found(kind, hits(kind)[i]) || m in Derived(kind, hits(kind)[i]);
  }

  ghost predicate IsHit(m: Match, value: string, h: Hit) { m.value == value && m.start == h.start && m.end == h.end }

  /** What is scanned for before what. */
  ghost function Turn(kind: IocType): nat {
    if kind.Url? then 1 else if kind.TelegramUrl? then 2 else if kind.Email? then 3 else if kind.Sha256? then 4
    else if kind.Sha1? then 5 else if kind.Md5? then 6 else 7
  }

  lemma TurnIsStage(kind: IocType, other: IocType)
    requires !other.Url? && !other.TelegramUrl? && !other.Cve? && Turn(kind) < Turn(other)
    ensures Gated(other) && StageOf(kind) < StageOf(other)
  {
  }

  lemma CoversOwns(m: Match, pos: nat)
    ensures Covers(m, pos) <==> OwnsAt(m, pos)
  {
  }

  /** In the result no mail address, hash, address, bare domain or handle starts inside a link,
      mail address or hash that has its turn before it. */
  lemma {:induction false} NothingStartsInside(hits: Hits, n: nat, out: seq<Match>, a: nat, b: nat)
    requires Extracted(hits).Some? && out == Deduped(Extracted(hits).value.matches, n)
    requires a < |out| && b < |out| && out[b].origin == None
    requires !out[b].kind.Url? && !out[b].kind.TelegramUrl? && !out[b].kind.Cve? &&
             Turn(out[a].kind) < Turn(out[b].kind)
    ensures !Covers(out[a], out[b].start)
  {
    hide Extracted, Deduped, Covers, OwnsAt, Gated, StageOf, Turn;
    TurnIsStage(out[a].kind, out[b].kind);
    CoversOwns(out[a], out[b].start);
    NothingNests(hits, n, out, a, b);
  }

  // ----- Bare domains -----

  ghost predicate NoBare(ms: seq<Match>) { forall j :: 0 <= j < |ms| ==> ms[j].origin.Some? || !ms[j].kind.Domain? }

  /** A bare domain is there only when no other match is of that domain. */
  ghost predicate BareAreLone(ms: seq<Match>) {
    forall i, j :: (0 <= i < |ms| && 0 <= j < |ms| && i != j && ms[i].kind == ms[j].kind == Domain
                    && ms[i].normalized == ms[j].normalized) ==> ms[i].origin.Some? && ms[j].origin.Some?
  }

  lemma {:induction false} ScanIsBareless(st: State, kind: IocType, hits: seq<Hit>)
    requires NoBare(st.matches) && !kind.Domain? && Scanned(st, kind, hits).Some?
    ensures NoBare(Scanned(st, kind, hits).value.matches)
  {
    if hits != [] { ScanIsBareless(st, kind, hits[..|hits| - 1]); }
  }

  lemma {:induction false} StepIsLone(st: State, kind: IocType, h: Hit)
    requires BareAreLone(st.matches) && (kind.Domain? || kind.TelegramUsername?) && Step(st, kind, h).Some?
    ensures BareAreLone(Step(st, kind, h).value.matches)
  {
    var ms, grown := st.matches, Step(st, kind, h).value.matches;
    if grown != ms {
      assert grown == ms + [Found(kind, h)];
      if kind.Domain? {
        forall i | 0 <= i < |ms| ensures KeyOf(ms[i]) != Key(Domain, h.norm.value) {}
      }
    }
  }

  lemma {:induction false} ScanIsLone(st: State, kind: IocType, hits: seq<Hit>)
    requires BareAreLone(st.matches) && (kind.Domain? || kind.TelegramUsername?) && Scanned(st, kind, hits).Some?
    ensures BareAreLone(Scanned(st, kind, hits).value.matches)
  {
    hide BareAreLone, Step;
    if hits != [] {
      ScanIsLone(st, kind, hits[..|hits| - 1]);
      StepIsLone(Scanned(st, kind, hits[..|hits| - 1]).value, kind, hits[|hits| - 1]);
    }
  }

  lemma {:induction false} StagesAreBareless(hits: Hits, k: nat)
    requires k <= 9 && Collected(hits, k).Some?
    ensures NoBare(Collected(hits, k).value.matches)
  {
    hide NoBare, Scanned;
    if k == 0 {
      assert NoBare([]) by { NothingIsBare(); }
    } else {
      StagesAreBareless(hits, k - 1);
      ScanIsBareless(Collected(hits, k - 1).value, Stages()[k - 1], hits(Stages()[k - 1]));
    }
  }

  lemma NothingIsBare()
    ensures NoBare([])
  {
  }

  lemma BarelessIsLone(ms: seq<Match>)
    requires NoBare(ms)
    ensures BareAreLone(ms)
  {
  }

  /** A bare domain counts only when it is not already there, whether in a link, in a mail
      address or on its own. */
  lemma {:induction false} BareDomainsAreLone(hits: Hits)
    requires Extracted(hits).Some?
    ensures BareAreLone(Extracted(hits).value.matches)
  {
    hide BareAreLone, NoBare, Scanned, Collected;
    CollectedSteps(hits);
    var st9, st10 := Collected(hits, 9).value, Collected(hits, 10).value;
    StagesAreBareless(hits, 9);
    BarelessIsLone(st9.matches);
    ScanIsLone(st9, Domain, hits(Domain));
    ScanIsLone(st10, TelegramUsername, hits(TelegramUsername));
  }

  lemma {:induction false} CollectedSteps(hits: Hits)
    requires Extracted(hits).Some?
    ensures Collected(hits, 9).Some? && Collected(hits, 10).Some?
    ensures Collected(hits, 10) == Scanned(Collected(hits, 9).value, Domain, hits(Domain))
    ensures Extracted(hits) == Scanned(Collected(hits, 10).value, TelegramUsername, hits(TelegramUsername))
  {
    hide Scanned;
    assert |Stages()| == 11;
  }

  // ----- Deduplication, written out -----

  lemma {:induction false} FilterOne<T>(s: seq<T>, p: T -> bool, x: T) returns (a: nat)
    requires Filter(s, p) == [x]
    ensures a < |s| && s[a] == x && p(x) && forall b :: 0 <= b < |s| && p(s[b]) ==> b == a
  {
    assert s != [];
    var front, last := s[..|s| - 1], s[|s| - 1];
    if p(last) {
      a := |front|;
      assert |Filter(s, p)| == |Filter(front, p)| + 1;
      assert Filter(front, p) == [];
      assert Filter(s, p)[0] == last;
      FilterNone(front, p);
      assert forall b :: 0 <= b < |s| && b != a ==> s[b] == front[b];
    } else {
      assert Filter(s, p) == Filter(front, p);
      a := FilterOne(front, p, x);
      assert forall b :: 0 <= b < |front| ==> s[b] == front[b];
    }
  }

  lemma {:induction false} FilterNone<T>(s: seq<T>, p: T -> bool)
    requires Filter(s, p) == []
    ensures forall b :: 0 <= b < |s| ==> !p(s[b])
  {
    if s != [] {
      var front := s[..|s| - 1];
      FilterNone(front, p);
      assert forall b :: 0 <= b < |front| ==> s[b] == front[b];
    }
  }

  /** For every match there is exactly one in the result with its type and normalised value:
      among all such, the one that starts earliest, then is longest, then was emitted first. */
  lemma {:induction false} KeptOnce(ms: seq<Match>, n: nat, i: nat) returns (a: nat, j: nat)
    requires InText(ms, n) && i < |ms|
    ensures var out := Deduped(ms, n);
            && a < |out| && j < |ms| && out[a] == ms[j] && ms[j].kind == ms[i].kind &&
               ms[j].normalized == ms[i].normalized
            && (forall b :: 0 <= b < |out| && out[b].kind == ms[i].kind && out[b].normalized == ms[i].normalized ==>
                            b == a)
    ensures forall k :: 0 <= k < |ms| && ms[k].kind == ms[i].kind && ms[k].normalized == ms[i].normalized ==>
              || ms[j].start < ms[k].start
              || (ms[j].start == ms[k].start && ms[j].end - ms[j].start > ms[k].end - ms[k].start)
              || (ms[j].start == ms[k].start && ms[j].end == ms[k].end && j <= k)
  {
    var key := KeyOf(ms[i]);
    assert Has(ms, key);
    j := OnePerKey(ms, n, key);
    hide Deduped, Has;
    a := FilterOne(Deduped(ms, n), HasKey(key), ms[j]);
    forall k | 0 <= k < |ms| && ms[k].kind == ms[i].kind && ms[k].normalized == ms[i].normalized
      ensures ms[j].start < ms[k].start
              || (ms[j].start == ms[k].start && ms[j].end - ms[j].start > ms[k].end - ms[k].start)
              || (ms[j].start == ms[k].start && ms[j].end == ms[k].end && j <= k)
    {
      assert KeyOf(ms[k]) == key;
    }
    forall b | 0 <= b < |Deduped(ms, n)| && Deduped(ms, n)[b].kind == ms[i].kind &&
        Deduped(ms, n)[b].normalized == ms[i].normalized
      ensures b == a
    {
      assert HasKey(key)(Deduped(ms, n)[b]);
    }
  }

  /** The types in the order of their names. */
  ghost predicate NotAfter(a: IocType, b: IocType) {
    var names := [Cve, Domain, Email, Ipv4, Ipv6, Md5, Sha1, Sha256, TelegramUrl, TelegramUsername, Url];
    exists i, j :: 0 <= i <= j < |names| && names[i] == a && names[j] == b
  }

  /** The result is ordered by start, then by the name of the type. */
  lemma {:induction false} ResultIsOrdered(ms: seq<Match>, n: nat, i: nat, j: nat)
    requires i < j < |Deduped(ms, n)|
    ensures var d := Deduped(ms, n);
            d[i].start < d[j].start || (d[i].start == d[j].start && NotAfter(d[i].kind, d[j].kind))
  {
    DedupedInOrder(ms, n);
    hide Deduped;
    var d := Deduped(ms, n);
    if Rank(d[i].kind) <= Rank(d[j].kind) { RankIsName(d[i].kind, d[j].kind); }
  }

  lemma RankIsName(a: IocType, b: IocType)
    requires Rank(a) <= Rank(b)
    ensures NotAfter(a, b)
  {
    var names := [Cve, Domain, Email, Ipv4, Ipv6, Md5, Sha1, Sha256, TelegramUrl, TelegramUsername, Url];
    assert names[Rank(a)] == a && names[Rank(b)] == b;
  }
}
