/** What a text gives rise to, written out: the rows, evidence and edges of every match, and
    nothing else. */
module Enrichment {
  import opened Options
  import opened Relationships
  import opened Ingest
  import opened IngestRuns
  import Ioc

  // ----- A list of links -----

  function IdOf(t: Tables, k: NaturalKey): string
    requires k in t.entities
  {
    t.entities[k].id
  }

  /** The row of the link is there, its sighting recorded on it, and an edge to it at least as
      confident as the link, from 0 to 100. */
  ghost predicate Present(t: Tables, e: Entity, l: Link) {
    && l.key in t.entities
    && var target := Entity(l.key.kind, t.entities[l.key].id);
       && (l.sighting.Some? ==>
             EvidenceKey(target, Some(l.sighting.value.field), l.sighting.value.source,
                 l.sighting.value.contentHash) in t.evidence)
       && EdgeKey(e, target, l.relType) in t.edges
       && (0 <= l.confidence <= 100 ==> l.confidence <= t.edges[EdgeKey(e, target, l.relType)].confidence)
  }

  lemma {:induction false} PresentOn(t: Tables, u: Tables, e: Entity, l: Link)
    requires Present(t, e, l) && Grew(t, u)
    ensures Present(u, e, l)
  {
    hide ColumnsGrew, MessagesGrew;
  }

  lemma {:induction false} LinkedIsPresent(w: World, st: State, e: Entity, l: Link)
    ensures Present(Linked(w, st, e, l).tables, e, l)
  {
  }

  lemma {:induction false} LinksArePresent(w: World, st: State, e: Entity, links: seq<Link>)
    ensures forall i :: 0 <= i < |links| ==> Present(LinkedAll(w, st, e, links).tables, e, links[i])
  {
    if links != [] {
      var front, l := links[..|links| - 1], links[|links| - 1];
      var mid := LinkedAll(w, st, e, front);
      LinksArePresent(w, st, e, front);
      LinkedIsPresent(w, mid, e, l);
      LinkGrows(w, mid, e, l);
      hide Present, Linked, Grew;
      forall i | 0 <= i < |links| ensures Present(LinkedAll(w, st, e, links).tables, e, links[i]) {
        if i < |front| {
          assert links[i] == front[i];
          PresentOn(mid.tables, Linked(w, mid, e, l).tables, e, links[i]);
        }
      }
    }
  }

  /** What is new in `u`: the rows, evidence and edges of the links, and nothing else. */
  ghost predicate OnlyThese(t: Tables, u: Tables, e: Entity, links: seq<Link>) {
    && (forall k :: k in u.entities && k !in t.entities ==> exists i :: 0 <= i < |links| && links[i].key == k)
    && (forall k :: k in u.evidence && k !in t.evidence ==> exists i :: 0 <= i < |links| && Sights(u, links[i], k))
    && (forall k :: k in u.edges && k !in t.edges ==> exists i :: 0 <= i < |links| && LeadsTo(u, e, links[i], k))
    && u.messages == t.messages
    && (forall k :: k in t.entities ==> k in u.entities && u.entities[k] == t.entities[k])
    && (forall k :: k in t.edges ==>
          k in u.edges && (u.edges[k] == t.edges[k] || exists i :: 0 <= i < |links| && LeadsTo(u, e, links[i], k)))
  }

  ghost predicate Sights(u: Tables, l: Link, k: EvidenceKey) {
    && l.key in u.entities && l.sighting.Some? && k in u.evidence
    && k == EvidenceKey(Entity(l.key.kind, u.entities[l.key].id), Some(l.sighting.value.field), l.sighting.value.source,
                        l.sighting.value.contentHash)
    && u.evidence[k].body == l.sighting.value.body
    && (0 <= l.sighting.value.confidence <= 100 ==> u.evidence[k].confidence == l.sighting.value.confidence)
  }

  ghost predicate LeadsTo(u: Tables, e: Entity, l: Link, k: EdgeKey) {
    l.key in u.entities && k == EdgeKey(e, Entity(l.key.kind, u.entities[l.key].id), l.relType)
  }

  lemma {:induction false} LinkedIsOnly(w: World, st: State, e: Entity, l: Link)
    ensures var u := Linked(w, st, e, l).tables;
            && (forall k :: k in u.entities && k !in st.tables.entities ==> k == l.key)
            && (forall k :: k in u.evidence && k !in st.tables.evidence ==> Sights(u, l, k))
            && (forall k :: k in u.edges && k !in st.tables.edges ==> LeadsTo(u, e, l, k))
            && u.messages == st.tables.messages
            && (forall k :: k in st.tables.entities ==> k in u.entities && u.entities[k] == st.tables.entities[k])
            && (forall k :: k in st.tables.edges ==>
                  k in u.edges && (u.edges[k] == st.tables.edges[k] || LeadsTo(u, e, l, k)))
  {
  }

  lemma LeadsLater(t: Tables, u: Tables, e: Entity, l: Link)
    requires Grew(t, u)
    ensures forall k :: Sights(t, l, k) ==> Sights(u, l, k)
    ensures forall k :: LeadsTo(t, e, l, k) ==> LeadsTo(u, e, l, k)
  {
  }

  lemma {:induction false} LinkIsOnly(w: World, st: State, e: Entity, links: seq<Link>)
    requires links != []
    ensures var l := links[|links| - 1]; OnlyThese(st.tables, Linked(w, st, e, l).tables, e, links[|links| - 1..])
  {
    var end := links[|links| - 1..];
    LinkedIsOnly(w, st, e, links[|links| - 1]);
    hide Linked, Sights, LeadsTo;
    assert end[0] == links[|links| - 1];
  }

  lemma {:induction false} LinksAreOnly(w: World, st: State, e: Entity, links: seq<Link>)
    ensures OnlyThese(st.tables, LinkedAll(w, st, e, links).tables, e, links)
  {
    hide Linked, Grew, Sights, LeadsTo;
    if links != [] {
      var n, l := |links| - 1, links[|links| - 1];
      var mid := LinkedAll(w, st, e, links[..n]);
      LinksAreOnly(w, st, e, links[..n]);
      LinkIsOnly(w, mid, e, links);
      LinkGrows(w, mid, e, l);
      hide OnlyThese;
      forall i | 0 <= i < n ensures forall k :: Sights(mid.tables, links[i], k) ==>
                                                Sights(Linked(w, mid, e, l).tables, links[i], k)
        ensures forall k :: LeadsTo(mid.tables, e, links[i], k) ==> LeadsTo(Linked(w, mid, e, l).tables, e, links[i], k)
      {
        LeadsLater(mid.tables, Linked(w, mid, e, l).tables, e, links[i]);
      }
      OneMore(st.tables, mid.tables, Linked(w, mid, e, l).tables, e, links);
    }
  }

  /** One link more. */
  lemma {:induction false} OneMore(t: Tables, m: Tables, u: Tables, e: Entity, links: seq<Link>)
    requires links != [] && OnlyThese(t, m, e, links[..|links| - 1]) && OnlyThese(m, u, e, links[|links| - 1..])
    requires forall i, k :: 0 <= i < |links| - 1 && Sights(m, links[i], k) ==> Sights(u, links[i], k)
    requires forall i, k :: 0 <= i < |links| - 1 && LeadsTo(m, e, links[i], k) ==> LeadsTo(u, e, links[i], k)
    ensures OnlyThese(t, u, e, links)
  {
    hide Sights, LeadsTo;
    var n := |links| - 1;
    var front, end := links[..n], links[n..];
    assert end[0] == links[n] && forall i :: 0 <= i < n ==> front[i] == links[i];
    forall k | k in u.entities && k !in t.entities ensures exists i :: 0 <= i < |links| && links[i].key == k {
      if k in m.entities {
        var i :| 0 <= i < n && front[i].key == k;
        assert links[i].key == k;
      } else {
        assert links[n].key == k;
      }
    }
    forall k | k in u.evidence && k !in t.evidence ensures exists i :: 0 <= i < |links| && Sights(u, links[i], k) {
      if k in m.evidence {
        var i :| 0 <= i < n && Sights(m, front[i], k);
        assert Sights(u, links[i], k);
      } else {
        assert Sights(u, links[n], k);
      }
    }
    forall k | k in u.edges && (k !in t.edges || u.edges[k] != t.edges[k])
      ensures exists i :: 0 <= i < |links| && LeadsTo(u, e, links[i], k)
    {
      if k in m.edges && (k !in t.edges || m.edges[k] != t.edges[k]) {
        var i :| 0 <= i < n && LeadsTo(m, e, front[i], k);
        assert LeadsTo(u, e, links[i], k);
      } else {
        assert LeadsTo(u, e, links[n], k);
      }
    }
  }

  // ----- The links of a match -----

  /** The type names of indicators. */
  ghost predicate IsNamed(kind: Ioc.IocType, name: string) {
    || (kind.Cve? && name == "cve") || (kind.Domain? && name == "domain") || (kind.Email? && name == "email")
    || (kind.Ipv4? && name == "ipv4") || (kind.Ipv6? && name == "ipv6") || (kind.Md5? && name == "md5")
    || (kind.Sha1? && name == "sha1") || (kind.Sha256? && name == "sha256")
    || (kind.TelegramUrl? && name == "telegram_url") || (kind.TelegramUsername? && name == "telegram_username")
    || (kind.Url? && name == "url")
  }

  /** How sure a match in a message is: 90 for hashes and CVEs, 85 for links and mail addresses,
      80 for addresses, 75 for handles, 70 for domains, and 10 less when derived. */
  ghost predicate IsSure(m: Ioc.Match, n: int) {
    && (m.kind.Md5? || m.kind.Sha1? || m.kind.Sha256? || m.kind.Cve? ==> n == if m.origin.Some? then 80 else 90)
    && (m.kind.Url? || m.kind.TelegramUrl? || m.kind.Email? ==> n == if m.origin.Some? then 75 else 85)
    && (m.kind.Ipv4? || m.kind.Ipv6? ==> n == if m.origin.Some? then 70 else 80)
    && (m.kind.TelegramUsername? ==> n == if m.origin.Some? then 65 else 75)
    && (m.kind.Domain? ==> n == if m.origin.Some? then 60 else 70)
  }

  /** The link to the indicator itself. */
  ghost predicate ToIndicator(w: World, field: string, source: string, text: string, m: Ioc.Match, l: Link) {
    && l.key.kind == "ioc"
    && (exists name :: IsNamed(m.kind, name) && l.key.value == name + ":" + w.natural(name, m.value))
    && l.sighting == Some(Sighting(field, source, w.snippet(text, m.start, m.end), if m.origin.Some? then 70 else 80,
       m.value))
  }

  /** The link to the row of the value itself. */
  ghost predicate ToValue(w: World, m: Ioc.Match, l: Link) {
    && l.sighting == None && IsSure(m, l.confidence)
    && match m.kind
       case Ipv4 => l.key == NaturalKey("ip", w.natural("ip", m.value)) && l.relType == "MESSAGE_CONTAINS_IP"
       case Ipv6 => l.key == NaturalKey("ip", w.natural("ip", m.value)) && l.relType == "MESSAGE_CONTAINS_IP"
       case Domain => l.key == NaturalKey("domain", w.natural("domain", m.value)) &&
           l.relType == "MESSAGE_CONTAINS_DOMAIN"
       case Url => l.key == NaturalKey("url", w.natural("url", m.value)) && l.relType == "MESSAGE_CONTAINS_URL"
       case TelegramUrl => l.key == NaturalKey("url", w.natural("url", m.value)) && l.relType == "MESSAGE_CONTAINS_URL"
       case TelegramUsername =>
         l.key == NaturalKey("username", "telegram:" + w.natural("username", m.value)) &&
             l.relType == "MESSAGE_MENTIONS_USERNAME"
       case _ => false
  }

  /** What a match calls for: in a message's text, and in a biography or description. */
  ghost predicate CallsFor(w: World, field: string, source: string, text: string, m: Ioc.Match, l: Link) {
    if field == "text"
    then
      || (ToIndicator(w, "observed_in_message", source, text, m, l) && l.relType == "MESSAGE_CONTAINS_IOC" &&
          IsSure(m, l.confidence))
      || ToValue(w, m, l)
    else
      && (m.kind.Domain? || m.kind.Url? || m.kind.TelegramUrl? || m.kind.Email?)
      && ToIndicator(w, field, source, text, m, l) && l.confidence == 60
      && l.relType == if m.kind.Domain? || m.kind.Email? then "DOMAIN_REFERENCED_BY_ACCOUNT"
         else "ACCOUNT_LINKED_TO_WEBSITE"
  }

  lemma {:induction false} NameIsOne(kind: Ioc.IocType, name: string)
    ensures IsNamed(kind, name) <==> name == TypeName(kind)
  {
  }

  lemma {:induction false} SureIsOne(m: Ioc.Match, n: int)
    ensures IsSure(m, n) <==> n == BaseConfidence(m.kind) - Penalty(m)
  {
  }

  lemma {:induction false} IndicatorIsOne(w: World, field: string, source: string, text: string, m: Ioc.Match, l: Link)
    ensures ToIndicator(w, field, source, text, m, l) <==>
            l.key == IndicatorKey(w, m) && l.sighting == Some(SightingOf(w, field, source, text, m))
  {
    forall name ensures IsNamed(m.kind, name) <==> name == TypeName(m.kind) { NameIsOne(m.kind, name); }
    hide IsNamed, TypeName;
  }

  lemma {:induction false} ValueIsOne(w: World, m: Ioc.Match, l: Link)
    ensures ToValue(w, m, l) <==> l in TypedLink(w, m, BaseConfidence(m.kind) - Penalty(m))
  {
    SureIsOne(m, l.confidence);
    hide IsSure, BaseConfidence, Penalty;
  }

  lemma {:induction false} LinksAreCalledFor(w: World, field: string, source: string, text: string, m: Ioc.Match,
                                             l: Link)
    ensures l in LinksOf(w, field, source, text, m) <==> CallsFor(w, field, source, text, m, l)
  {
    ValueIsOne(w, m, l);
    SureIsOne(m, l.confidence);
    IndicatorIsOne(w, if field == "text" then "observed_in_message" else field, source, text, m, l);
    hide ToValue, ToIndicator, IsSure, TypedLink, IndicatorKey, SightingOf, BaseConfidence, Penalty;
  }

  lemma {:induction false} AllLinksAreCalledFor(w: World, field: string, source: string, text: string,
                                                ms: seq<Ioc.Match>, l: Link)
    ensures l in AllLinks(w, field, source, text, ms) <==>
            exists i :: 0 <= i < |ms| && CallsFor(w, field, source, text, ms[i], l)
  {
    hide CallsFor, LinksOf;
    if ms != [] {
      var front, m := ms[..|ms| - 1], ms[|ms| - 1];
      AllLinksAreCalledFor(w, field, source, text, front, l);
      LinksAreCalledFor(w, field, source, text, m, l);
      if i :| 0 <= i < |front| && CallsFor(w, field, source, text, front[i], l) { assert ms[i] == front[i]; }
      if i :| 0 <= i < |ms| && CallsFor(w, field, source, text, ms[i], l) { assert i < |front| ==> front[i] == ms[i]; }
    }
  }

  // ----- A text -----

  /** The field holds a text, and its scan does not raise. */
  ghost predicate IsScanned(w: World, rec: Record, field: string) {
    field in rec.attributes && rec.attributes[field] != "" && Ioc.Extracted(w.scan(rec.attributes[field])).Some?
  }

  /** The matches in the text. */
  function MatchesIn(w: World, text: string): seq<Ioc.Match> {
    match Ioc.Extracted(w.scan(text)) case None => [] case Some(scanned) => Ioc.Deduped(scanned.matches, |text|)
  }

  /** Some match in the text calls for the link. The source is that of the record's first
      evidence, or manual. */
  ghost predicate Wanted(w: World, rec: Record, field: string, l: Link)
    requires field in rec.attributes
  {
    var source := if rec.evidence == [] || rec.evidence[0].source == "" then "manual" else rec.evidence[0].source;
    var ms := MatchesIn(w, rec.attributes[field]);
    exists i :: 0 <= i < |ms| && CallsFor(w, field, source, rec.attributes[field], ms[i], l)
  }

  lemma {:induction false} EnrichedIsLinked(w: World, st: State, e: Entity, rec: Record, field: string)
    requires !st.raised && IsScanned(w, rec, field)
    ensures var links := AllLinks(w, field, SourceOf(rec), rec.attributes[field], MatchesIn(w, rec.attributes[field]));
            && Enriched(w, st, e, rec, field) == LinkedAll(w, st, e, links)
            && forall l :: l in links <==> Wanted(w, rec, field, l)
  {
    hide LinkedAll, AllLinks, Ioc.Extracted, Ioc.Deduped, CallsFor;
    forall l ensures l in AllLinks(w, field, SourceOf(rec), rec.attributes[field], MatchesIn(w, rec.attributes[field]))
                     <==> Wanted(w, rec, field, l) {
      AllLinksAreCalledFor(w, field, SourceOf(rec), rec.attributes[field], MatchesIn(w, rec.attributes[field]), l);
    }
  }

  /** All that the matches in a text call for is there afterwards. */
  lemma {:induction false} TextIsStored(w: World, st: State, e: Entity, rec: Record, field: string, l: Link)
    requires !st.raised && IsScanned(w, rec, field) && Wanted(w, rec, field, l)
    ensures Present(Enriched(w, st, e, rec, field).tables, e, l)
  {
    EnrichedIsLinked(w, st, e, rec, field);
    hide Enriched, Wanted, Present, LinkedAll, AllLinks;
    var links := AllLinks(w, field, SourceOf(rec), rec.attributes[field], MatchesIn(w, rec.attributes[field]));
    LinksArePresent(w, st, e, links);
    var i :| 0 <= i < |links| && links[i] == l;
  }

  /** And nothing else happens: no row, evidence or edge is new that no match calls for, and what
      was there stays as it was, up to the edges that are observed again. */
  lemma {:induction false} NothingElseIsStored(w: World, st: State, e: Entity, rec: Record, field: string)
    requires !st.raised && IsScanned(w, rec, field)
    ensures var u := Enriched(w, st, e, rec, field).tables;
            && u.messages == st.tables.messages
            && (forall k :: k in u.entities && k !in st.tables.entities ==>
                            exists l :: Wanted(w, rec, field, l) && l.key == k)
            && (forall k :: k in u.evidence && k !in st.tables.evidence ==>
                            exists l :: Wanted(w, rec, field, l) && Sights(u, l, k))
            && (forall k :: k in u.edges && k !in st.tables.edges ==>
                            exists l :: Wanted(w, rec, field, l) && LeadsTo(u, e, l, k))
            && (forall k :: k in st.tables.entities ==> k in u.entities && u.entities[k] == st.tables.entities[k])
            && (forall k :: k in st.tables.edges ==>
                  k in u.edges &&
                  (u.edges[k] == st.tables.edges[k] || exists l :: Wanted(w, rec, field, l) && LeadsTo(u, e, l, k)))
  {
    EnrichedIsLinked(w, st, e, rec, field);
    hide Enriched, Wanted, LinkedAll, AllLinks;
    var links := AllLinks(w, field, SourceOf(rec), rec.attributes[field], MatchesIn(w, rec.attributes[field]));
    LinksAreOnly(w, st, e, links);
    var t, u := st.tables, Enriched(w, st, e, rec, field).tables;
    forall k | k in u.entities && k !in t.entities ensures exists l :: Wanted(w, rec, field, l) && l.key == k {
      var i :| 0 <= i < |links| && links[i].key == k;
      assert links[i] in links;
    }
    forall k | k in u.evidence && k !in t.evidence ensures exists l :: Wanted(w, rec, field, l) && Sights(u, l, k) {
      var i :| 0 <= i < |links| && Sights(u, links[i], k);
      assert links[i] in links;
    }
    forall k | k in u.edges && (k !in t.edges || u.edges[k] != t.edges[k])
      ensures exists l :: Wanted(w, rec, field, l) && LeadsTo(u, e, l, k)
    {
      var i :| 0 <= i < |links| && LeadsTo(u, e, links[i], k);
      assert links[i] in links;
    }
  }

  /** One match in a message's text: its indicator, the evidence on it, and the edges from the
      message to the indicator and to the row of the value itself. */
  lemma {:induction false} MessageMatchIsStored(w: World, st: State, e: Entity, rec: Record, i: nat, name: string,
                                                n: int)
    requires !st.raised && IsScanned(w, rec, "text") && i < |MatchesIn(w, rec.attributes["text"])|
    requires var m := MatchesIn(w, rec.attributes["text"])[i]; IsNamed(m.kind, name) && IsSure(m, n)
    ensures var u, text := Enriched(w, st, e, rec, "text").tables, rec.attributes["text"];
            var m := MatchesIn(w, text)[i];
            var source := if rec.evidence == [] || rec.evidence[0].source == "" then "manual"
                else rec.evidence[0].source;
            var ioc := NaturalKey("ioc", name + ":" + w.natural(name, m.value));
            && ioc in u.entities
            && EvidenceKey(Entity("ioc", IdOf(u, ioc)), Some("observed_in_message"), source,
               w.snippet(text, m.start, m.end)) in u.evidence
            && Joined(u, e, Entity("ioc", IdOf(u, ioc)), "MESSAGE_CONTAINS_IOC", n)
            && (m.kind.Ipv4? || m.kind.Ipv6? ==>
                  HasRow(w, u, e, "ip", w.natural("ip", m.value), "MESSAGE_CONTAINS_IP", n))
            && (m.kind.Domain? ==>
                  HasRow(w, u, e, "domain", w.natural("domain", m.value), "MESSAGE_CONTAINS_DOMAIN", n))
            && (m.kind.Url? || m.kind.TelegramUrl? ==>
               HasRow(w, u, e, "url", w.natural("url", m.value), "MESSAGE_CONTAINS_URL", n))
            && (m.kind.TelegramUsername? ==>
                  HasRow(w, u, e, "username", "telegram:" + w.natural("username", m.value),
                      "MESSAGE_MENTIONS_USERNAME", n))
  {
    var text := rec.attributes["text"];
    var m := MatchesIn(w, text)[i];
    var source := if rec.evidence == [] || rec.evidence[0].source == "" then "manual" else rec.evidence[0].source;
    var sighting := Sighting("observed_in_message", source, w.snippet(text, m.start, m.end),
        if m.origin.Some? then 70 else 80, m.value);
    var l := Link(NaturalKey("ioc", name + ":" + w.natural(name, m.value)), Some(sighting), "MESSAGE_CONTAINS_IOC", n);
    SureIsPercent(m, n);
    hide MatchesIn, Enriched, IsSure, IsNamed;
    assert CallsFor(w, "text", source, text, m, l);
    assert Wanted(w, rec, "text", l);
    TextIsStored(w, st, e, rec, "text", l);
    TypedIsStored(w, st, e, rec, i, n);
  }

  lemma {:induction false} TypedIsStored(w: World, st: State, e: Entity, rec: Record, i: nat, n: int)
    requires !st.raised && IsScanned(w, rec, "text") && i < |MatchesIn(w, rec.attributes["text"])|
    requires IsSure(MatchesIn(w, rec.attributes["text"])[i], n)
    ensures var u, m := Enriched(w, st, e, rec, "text").tables, MatchesIn(w, rec.attributes["text"])[i];
            && (m.kind.Ipv4? || m.kind.Ipv6? ==>
                  HasRow(w, u, e, "ip", w.natural("ip", m.value), "MESSAGE_CONTAINS_IP", n))
            && (m.kind.Domain? ==>
                  HasRow(w, u, e, "domain", w.natural("domain", m.value), "MESSAGE_CONTAINS_DOMAIN", n))
            && (m.kind.Url? || m.kind.TelegramUrl? ==>
               HasRow(w, u, e, "url", w.natural("url", m.value), "MESSAGE_CONTAINS_URL", n))
            && (m.kind.TelegramUsername? ==>
                  HasRow(w, u, e, "username", "telegram:" + w.natural("username", m.value),
                      "MESSAGE_MENTIONS_USERNAME", n))
  {
    var m := MatchesIn(w, rec.attributes["text"])[i];
    SureIsPercent(m, n);
    hide MatchesIn, Enriched, IsSure;
    match m.kind
    case Ipv4 => RowIsStored(w, st, e, rec, i, Link(NaturalKey("ip", w.natural("ip", m.value)), None,
        "MESSAGE_CONTAINS_IP", n));
    case Ipv6 => RowIsStored(w, st, e, rec, i, Link(NaturalKey("ip", w.natural("ip", m.value)), None,
        "MESSAGE_CONTAINS_IP", n));
    case Domain =>
      RowIsStored(w, st, e, rec, i, Link(NaturalKey("domain", w.natural("domain", m.value)), None,
          "MESSAGE_CONTAINS_DOMAIN", n));
    case Url => RowIsStored(w, st, e, rec, i, Link(NaturalKey("url", w.natural("url", m.value)), None,
        "MESSAGE_CONTAINS_URL", n));
    case TelegramUrl =>
      RowIsStored(w, st, e, rec, i, Link(NaturalKey("url", w.natural("url", m.value)), None, "MESSAGE_CONTAINS_URL",
          n));
    case TelegramUsername =>
      var key := NaturalKey("username", "telegram:" + w.natural("username", m.value));
      RowIsStored(w, st, e, rec, i, Link(key, None, "MESSAGE_MENTIONS_USERNAME", n));
    case _ =>
  }

  lemma {:induction false} RowIsStored(w: World, st: State, e: Entity, rec: Record, i: nat, l: Link)
    requires !st.raised && IsScanned(w, rec, "text") && i < |MatchesIn(w, rec.attributes["text"])|
    requires ToValue(w, MatchesIn(w, rec.attributes["text"])[i], l) && 0 <= l.confidence <= 100
    ensures HasRow(w, Enriched(w, st, e, rec, "text").tables, e, l.key.kind, l.key.value, l.relType, l.confidence)
  {
    var text := rec.attributes["text"];
    var source := if rec.evidence == [] || rec.evidence[0].source == "" then "manual" else rec.evidence[0].source;
    hide MatchesIn, Enriched, ToValue, ToIndicator;
    assert CallsFor(w, "text", source, text, MatchesIn(w, text)[i], l);
    assert Wanted(w, rec, "text", l);
    TextIsStored(w, st, e, rec, "text", l);
    assert l.key == NaturalKey(l.key.kind, l.key.value);
  }

  /** The edge is there, at least that confident. */
  ghost predicate Joined(u: Tables, e: Entity, target: Entity, relType: string, n: int) {
    EdgeKey(e, target, relType) in u.edges && u.edges[EdgeKey(e, target, relType)].confidence >= n
  }

  /** The row is there, with an edge to it. */
  ghost predicate HasRow(w: World, u: Tables, e: Entity, kind: string, value: string, relType: string, n: int) {
    NaturalKey(kind, value) in u.entities && Joined(u, e, Entity(kind, IdOf(u, NaturalKey(kind, value))), relType, n)
  }

  lemma SureIsPercent(m: Ioc.Match, n: int)
    requires IsSure(m, n)
    ensures 0 <= n <= 100
  {
  }

  /** One match in a biography or description: for domains, links and mail addresses its
      indicator, the evidence on it, and the edge from the profile; nothing for other kinds. */
  lemma {:induction false} ProfileMatchIsStored(w: World, st: State, e: Entity, rec: Record, field: string, i: nat,
                                                name: string)
    requires field == "bio" || field == "description"
    requires !st.raised && IsScanned(w, rec, field) && i < |MatchesIn(w, rec.attributes[field])|
    requires IsNamed(MatchesIn(w, rec.attributes[field])[i].kind, name)
    ensures var u, text := Enriched(w, st, e, rec, field).tables, rec.attributes[field];
            var m := MatchesIn(w, text)[i];
            var source := if rec.evidence == [] || rec.evidence[0].source == "" then "manual"
                else rec.evidence[0].source;
            var ioc := NaturalKey("ioc", name + ":" + w.natural(name, m.value));
            m.kind.Domain? || m.kind.Url? || m.kind.TelegramUrl? || m.kind.Email? ==>
              && ioc in u.entities
              && EvidenceKey(Entity("ioc", IdOf(u, ioc)), Some(field), source,
                 w.snippet(text, m.start, m.end)) in u.evidence
              && (m.kind.Domain? || m.kind.Email? ==>
                    Joined(u, e, Entity("ioc", IdOf(u, ioc)), "DOMAIN_REFERENCED_BY_ACCOUNT", 60))
              && (m.kind.Url? || m.kind.TelegramUrl? ==>
                    Joined(u, e, Entity("ioc", IdOf(u, ioc)), "ACCOUNT_LINKED_TO_WEBSITE", 60))
  {
    var text := rec.attributes[field];
    var m := MatchesIn(w, text)[i];
    var source := if rec.evidence == [] || rec.evidence[0].source == "" then "manual" else rec.evidence[0].source;
    var sighting := Sighting(field, source, w.snippet(text, m.start, m.end), if m.origin.Some? then 70 else 80,
        m.value);
    var rel := if m.kind.Domain? || m.kind.Email? then "DOMAIN_REFERENCED_BY_ACCOUNT" else "ACCOUNT_LINKED_TO_WEBSITE";
    var l := Link(NaturalKey("ioc", name + ":" + w.natural(name, m.value)), Some(sighting), rel, 60);
    hide MatchesIn, Enriched, IsNamed;
    if m.kind.Domain? || m.kind.Url? || m.kind.TelegramUrl? || m.kind.Email? {
      assert CallsFor(w, field, source, text, m, l);
      assert Wanted(w, rec, field, l);
      TextIsStored(w, st, e, rec, field, l);
    }
  }

  // ----- What the summary says of a text -----

  /** How many of the matches are recorded: all of a message's, and the domains, links and mail
      addresses of a profile. */
  ghost function Sightings(field: string, ms: seq<Ioc.Match>): nat {
    if ms == [] then 0
    else
      var k := ms[|ms| - 1].kind;
      Sightings(field, ms[..|ms| - 1]) +
      if field == "text" || k.Domain? || k.Url? || k.TelegramUrl? || k.Email? then 1 else 0
  }

  ghost function OneIf(l: Link): nat { if l.sighting.Some? then 1 else 0 }

  ghost function SightingsOf(links: seq<Link>): nat {
    if links == [] then 0 else SightingsOf(links[..|links| - 1]) + OneIf(links[|links| - 1])
  }

  lemma {:induction false} SightingsAppend(a: seq<Link>, b: seq<Link>)
    ensures SightingsOf(a + b) == SightingsOf(a) + SightingsOf(b)
  {
    if b == [] {
      assert a + b == a;
    } else {
      SightingsAppend(a, b[..|b| - 1]);
      assert (a + b)[..|a + b| - 1] == a + b[..|b| - 1];
    }
  }

  lemma {:induction false} SightingsOfOne(w: World, field: string, source: string, text: string, m: Ioc.Match)
    ensures SightingsOf(LinksOf(w, field, source, text, m)) ==
            if field == "text" || m.kind.Domain? || m.kind.Url? || m.kind.TelegramUrl? || m.kind.Email? then 1 else 0
  {
    var links := LinksOf(w, field, source, text, m);
    assert |links| <= 2 && (|links| == 2 ==> links[1].sighting == None) && (|links| > 0 ==> links[0].sighting.Some?);
    if |links| == 2 {
      assert links[..1][..0] == [];
      assert SightingsOf(links[..1]) == 1;
    } else if |links| == 1 {
      assert links[..0] == [];
    }
  }

  lemma {:induction false} SightingsAreAll(w: World, field: string, source: string, text: string, ms: seq<Ioc.Match>)
    ensures SightingsOf(AllLinks(w, field, source, text, ms)) == Sightings(field, ms)
  {
    if ms != [] {
      SightingsAreAll(w, field, source, text, ms[..|ms| - 1]);
      SightingsOfOne(w, field, source, text, ms[|ms| - 1]);
      SightingsAppend(AllLinks(w, field, source, text, ms[..|ms| - 1]), LinksOf(w, field, source, text, ms[|ms| - 1]));
      hide LinksOf, SightingsOf;
    }
  }

  /** The indicators there are. */
  ghost function Indicators(t: Tables): set<NaturalKey> { set k | k in t.entities && k.kind == "ioc" }

  /** The summary counts the new indicators and edges, and `n` sightings. */
  ghost predicate CountsMore(st: State, st': State, n: nat) {
    && Indicators(st.tables) <= Indicators(st'.tables) && st.tables.edges.Keys <= st'.tables.edges.Keys
    && st'.summary == st.summary.(
         iocs := st.summary.iocs + |Indicators(st'.tables) - Indicators(st.tables)|,
         relationships := st.summary.relationships + |st'.tables.edges.Keys - st.tables.edges.Keys|,
         evidence := st.summary.evidence + n)
  }

  lemma NoneMore(st: State)
    ensures CountsMore(st, st, 0)
  {
    assert Indicators(st.tables) - Indicators(st.tables) == {};
    assert st.tables.edges.Keys - st.tables.edges.Keys == {};
  }

  lemma {:induction false} FoundCounts(w: World, st: State, k: NaturalKey)
    ensures CountsMore(st, Found(w, st, k), 0)
  {
    NoneMore(st);
    var t, u := st.tables, Found(w, st, k).tables;
    if k !in t.entities {
      assert Indicators(u) == Indicators(t) + if k.kind == "ioc" then {k} else {};
      assert Indicators(u) - Indicators(t) == if k.kind == "ioc" then {k} else {};
      assert u.edges == t.edges;
    }
  }

  lemma {:induction false} SightedCounts(st: State, e: Entity, s: Sighting)
    ensures CountsMore(st, Sighted(st, e, s), 1)
  {
    var t, u := st.tables, Sighted(st, e, s).tables;
    assert u.entities == t.entities && u.edges == t.edges;
    assert Indicators(u) - Indicators(t) == {} && u.edges.Keys - t.edges.Keys == {};
  }

  lemma {:induction false} ObservingCounts(st: State, k: EdgeKey, confidence: int, now: int)
    ensures CountsMore(st, Observing(st, k, confidence, now), 0)
  {
    var t, u := st.tables, Observing(st, k, confidence, now).tables;
    assert u.entities == t.entities && u.edges.Keys == t.edges.Keys + {k};
    assert Indicators(u) - Indicators(t) == {};
    assert u.edges.Keys - t.edges.Keys == if k in t.edges then {} else {k};
  }

  lemma NotedIs(w: World, st: State, l: Link)
    ensures Noted(w, st, l) ==
            if l.sighting.Some? then Sighted(Found(w, st, l.key), TargetOf(w, st, l), l.sighting.value)
            else Found(w, st, l.key)
    ensures OneIf(l) == if l.sighting.Some? then 1 else 0
  {
    hide Found, Sighted, TargetOf;
  }

  lemma {:induction false} NotedCounts(w: World, st: State, l: Link)
    ensures CountsMore(st, Noted(w, st, l), OneIf(l))
  {
    hide CountsMore, Found, Sighted, TargetOf, Noted, OneIf;
    var st1, target := Found(w, st, l.key), TargetOf(w, st, l);
    FoundCounts(w, st, l.key);
    NotedIs(w, st, l);
    if l.sighting.Some? {
      SightedCounts(st1, target, l.sighting.value);
      CountsAdd(st, st1, Noted(w, st, l), 0, 1, OneIf(l));
    }
  }

  lemma {:induction false} LinkedCounts(w: World, st: State, e: Entity, l: Link)
    ensures CountsMore(st, Linked(w, st, e, l), OneIf(l))
  {
    hide CountsMore, Linked, Noted, Found, Observing, OneIf, TargetOf;
    var st2, k := Noted(w, st, l), EdgeKey(e, TargetOf(w, st, l), l.relType);
    NotedCounts(w, st, l);
    LinkedIsNoted(w, st, e, l);
    ObservingCounts(st2, k, l.confidence, w.now);
    CountsAdd(st, st2, Observing(st2, k, l.confidence, w.now), OneIf(l), 0, OneIf(l));
  }

  lemma {:induction false} SetSteps<T>(a: set<T>, b: set<T>, c: set<T>)
    requires a <= b <= c
    ensures |c - a| == |b - a| + |c - b|
  {
    assert c - a == (b - a) + (c - b);
  }

  lemma {:induction false} CountsAdd(a: State, b: State, c: State, n: nat, n': nat, sum: nat)
    requires CountsMore(a, b, n) && CountsMore(b, c, n') && sum == n + n'
    ensures CountsMore(a, c, sum)
  {
    hide Indicators;
    SetSteps(Indicators(a.tables), Indicators(b.tables), Indicators(c.tables));
    SetSteps(a.tables.edges.Keys, b.tables.edges.Keys, c.tables.edges.Keys);
  }

  lemma {:induction false} LinksCount(w: World, st: State, e: Entity, links: seq<Link>)
    ensures CountsMore(st, LinkedAll(w, st, e, links), SightingsOf(links))
  {
    hide CountsMore, Linked;
    if links == [] {
      NoneMore(st);
    } else {
      var mid := LinkedAll(w, st, e, links[..|links| - 1]);
      LinksCount(w, st, e, links[..|links| - 1]);
      LinkedCounts(w, mid, e, links[|links| - 1]);
      CountsAdd(st, mid, LinkedAll(w, st, e, links), SightingsOf(links[..|links| - 1]), OneIf(links[|links| - 1]),
                SightingsOf(links));
    }
  }

  /** A text adds to the summary the indicators and edges that are new and the number of its
      matches that are recorded, and nothing else. */
  lemma {:induction false} TextIsCounted(w: World, st: State, e: Entity, rec: Record, field: string)
    requires !st.raised && IsScanned(w, rec, field)
    ensures CountsMore(st, Enriched(w, st, e, rec, field), Sightings(field, MatchesIn(w, rec.attributes[field])))
  {
    EnrichedIsLinked(w, st, e, rec, field);
    hide Enriched, LinkedAll, AllLinks;
    var ms := MatchesIn(w, rec.attributes[field]);
    LinksCount(w, st, e, AllLinks(w, field, SourceOf(rec), rec.attributes[field], ms));
    SightingsAreAll(w, field, SourceOf(rec), rec.attributes[field], ms);
  }

  // ----- Whole batches -----

  /** An account, group or channel with a biography or description, as it is stored. */
  lemma {:induction false} ProfileIsStored(w: World, st: State, rec: Record, field: string, l: Link)
    requires !st.raised && rec.key.Some? && !AfterEntity(w, st, rec).raised
    requires rec.kind == "telegram_account" || rec.kind == "telegram_group" || rec.kind == "telegram_channel"
    requires (field == "bio" || field == "description") && IsScanned(w, rec, field) && Wanted(w, rec, field, l)
    ensures var u, k := AfterEntity(w, st, rec).tables, NaturalKey(rec.kind, rec.key.value);
            k in u.entities && Present(u, Entity(rec.kind, IdOf(u, k)), l)
  {
    var k := NaturalKey(rec.kind, rec.key.value);
    var st1 := StoredEntity(w, st, rec);
    StoredResolves(w, st, rec);
    var e := st1.summary.resolved[rec.ref];
    assert e == Entity(rec.kind, IdOf(st1.tables, k));
    var st2 := Enriched(w, st1, e, rec, "bio");
    var st3 := Enriched(w, st2, e, rec, "description");
    TextKeepsBooks(w, st1, e, rec, "bio");
    TextKeepsBooks(w, st2, e, rec, "description");
    TextGrows(w, st1, e, rec, "bio");
    TextGrows(w, st2, e, rec, "description");
    hide StoredEntity, Enriched, Wanted, Present, TextRaises, IsScanned, ColumnsGrew;
    if field == "bio" {
      TextIsStored(w, st1, e, rec, "bio", l);
      PresentOn(st2.tables, st3.tables, e, l);
    } else {
      TextIsStored(w, st2, e, rec, "description", l);
    }
  }

  /** A message, as it is stored. */
  lemma {:induction false} MessageIsStored(w: World, st: State, m: Record, c: Entity, l: Link)
    requires !st.raised && m.number.Some? && ContainerOf(st.summary.resolved, m) == Some(c)
    requires IsScanned(w, m, "text") && Wanted(w, m, "text", l)
    ensures var u, k := AfterMessage(w, st, m).tables, MessageKey(c, m.number.value);
            k in u.messages && Present(u, Entity("message", u.messages[k].id), l)
  {
    hide ContainerOf;
    var k := MessageKey(c, m.number.value);
    var st1 := StoredMessage(w, st, m, c);
    MessageResolves(w, st, m, c);
    var e := st1.summary.resolved[m.ref];
    assert e == Entity("message", st1.tables.messages[k].id);
    TextKeepsBooks(w, st1, e, m, "text");
    hide StoredMessage, Enriched, Wanted, Present, TextRaises, IsScanned;
    TextIsStored(w, st1, e, m, "text", l);
  }

  lemma RaisedStep(w: World, st: State, x: Work)
    ensures st.raised ==> After(w, st, x) == st
  {
  }

  /** The state in which a piece of a batch is dealt with, and what comes of it. */
  lemma {:induction false} StepInBatch(w: World, t: Tables, plan: seq<Work>, k: nat)
    requires k < |plan| && !Run(w, Start(t), plan).raised
    ensures var st := Run(w, Start(t), plan[..k]);
            && !st.raised && !After(w, st, plan[k]).raised
            && Grew(After(w, st, plan[k]).tables, Run(w, Start(t), plan).tables)
  {
    var st := Run(w, Start(t), plan[..k]);
    assert plan == plan[..k] + [plan[k]] + plan[k + 1..];
    RunAppend(w, Start(t), plan[..k] + [plan[k]], plan[k + 1..]);
    RunStep(w, Start(t), plan[..k], plan[k]);
    RunGrows(w, After(w, st, plan[k]), plan[k + 1..]);
    NeverRaised(w, After(w, st, plan[k]), plan[k + 1..]);
    RaisedStep(w, st, plan[k]);
    hide Run, Grew, After;
  }

  /** When a batch does not raise, everything that the matches in its profiles and messages call
      for is there in the end, at the rows of their records. */
  lemma {:induction false} EveryTextIsStored(w: World, t: Tables, b: Batch, k: nat, field: string, l: Link)
    requires k < |Plan(b)| && !Run(w, Start(t), Plan(b)).raised
    requires (Plan(b)[k].OneEntity? || Plan(b)[k].OneMessage?) && IsScanned(w, Plan(b)[k].rec, field)
    requires Wanted(w, Plan(b)[k].rec, field, l)
    ensures var x, u, st := Plan(b)[k], Run(w, Start(t), Plan(b)).tables, Run(w, Start(t), Plan(b)[..k]);
            && (x.OneEntity? && x.rec.key.Some? && (field == "bio" || field == "description")
                && x.rec.kind in {"telegram_account", "telegram_group", "telegram_channel"} ==>
                  var key := NaturalKey(x.rec.kind, x.rec.key.value);
                  key in u.entities && Present(u, Entity(x.rec.kind, IdOf(u, key)), l))
            && (x.OneMessage? && field == "text" && x.rec.number.Some?
                && ContainerOf(st.summary.resolved, x.rec).Some? ==>
                  var key := MessageKey(ContainerOf(st.summary.resolved, x.rec).value, x.rec.number.value);
                  key in u.messages && Present(u, Entity("message", u.messages[key].id), l))
  {
    var x, u, st := Plan(b)[k], Run(w, Start(t), Plan(b)).tables, Run(w, Start(t), Plan(b)[..k]);
    StepInBatch(w, t, Plan(b), k);
    hide Run, Plan, AfterEntity, AfterMessage, ContainerOf, Present, Wanted, IsScanned, ColumnsGrew, EvidenceGrew,
        EdgesGrew;
    var mid := After(w, st, x).tables;
    match x
    case OneEntity(rec) =>
      if rec.key.Some? && (field == "bio" || field == "description")
         && (rec.kind == "telegram_account" || rec.kind == "telegram_group" || rec.kind == "telegram_channel") {
        ProfileIsStored(w, st, rec, field, l);
        PresentOn(mid, u, Entity(rec.kind, IdOf(mid, NaturalKey(rec.kind, rec.key.value))), l);
      }
    case OneMessage(m) =>
      var c := ContainerOf(st.summary.resolved, m);
      if field == "text" && m.number.Some? && c.Some? {
        MessageIsStored(w, st, m, c.value, l);
        PresentOn(mid, u, Entity("message", mid.messages[MessageKey(c.value, m.number.value)].id), l);
      }
  }
}
