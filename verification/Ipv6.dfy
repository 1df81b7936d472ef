/** IPv6 addresses in text, as Python's ipaddress module reads them: texts of hexadecimal
    digits and colons, so without an IPv4 tail or a scope. */
module Ipv6 {
  import opened Text

  predicate IsHex(c: char) { IsDigit(c) || 'a' <= LowerChar(c) <= 'f' }

  predicate IsColon(c: char) { c == ':' }

  predicate IsHexOrColon(c: char) { IsHex(c) || IsColon(c) }

  predicate IsGroup(g: string) { 1 <= |g| <= 4 && All(g, IsHex) }

  /** Part `k` is the one gap: the other inner parts are not empty, an outer part is empty only
      next to the gap, and the gap stands for one group at least. */
  predicate HasGap(p: seq<string>, k: nat) {
    && 0 < k < |p| - 1 && p[k] == ""
    && (forall i :: 0 < i < |p| - 1 && i != k ==> p[i] != "")
    && (p[0] == "" ==> k == 1) && (p[|p| - 1] == "" ==> k == |p| - 2)
    && Before(p, k) + Behind(p, k) <= 7
    && forall i :: 0 <= i < |p| ==> p[i] == "" || IsGroup(p[i])
  }

  /** How many groups stand before the gap, and behind it. */
  function Before(p: seq<string>, k: nat): nat
    requires 0 < k < |p|
  {
    if p[0] == "" then k - 1 else k
  }

  function Behind(p: seq<string>, k: nat): nat
    requires k < |p| - 1
  {
    if p[|p| - 1] == "" then |p| - k - 2 else |p| - k - 1
  }

  predicate IsFull(p: seq<string>) { |p| == 8 && forall i :: 0 <= i < |p| ==> IsGroup(p[i]) }

  /** `IPv6Address` accepts the text. */
  predicate IsValid(s: string) {
    var p := Split(s, ':');
    3 <= |p| <= 9 && (IsFull(p) || exists k :: 0 < k < |p| - 1 && HasGap(p, k))
  }

  /** `strip(":")` */
  function StripColons(s: string): string { DropEndWhile(DropWhile(s, IsColon), IsColon) }

  predicate Bare(s: string) { s == "" || (s[0] != ':' && s[|s| - 1] != ':') }

  lemma StripBare(s: string)
    requires Bare(s)
    ensures StripColons(s) == s
  {
  }

  /** Texts without an empty part and with fewer than eight parts are not addresses. */
  lemma {:induction false} TooFew(s: string)
    requires var p := Split(s, ':'); |p| < 8 && forall i :: 0 < i < |p| - 1 ==> p[i] != ""
    ensures !IsValid(s)
  {
    var p := Split(s, ':');
    forall k | 0 < k < |p| - 1 ensures !HasGap(p, k) { assert p[k] != ""; }
  }

  lemma {:induction false} FullIsBare(s: string)
    requires IsFull(Split(s, ':'))
    ensures Bare(s)
  {
    SplitHead(s, ':');
    SplitTail(s, ':');
    hide Split;
  }

  /** A gap at the end: the text is `r::`, and `r` has fewer than eight parts, none empty. */
  lemma {:induction false} GapAtEnd(s: string, k: nat) returns (r: string)
    requires HasGap(Split(s, ':'), k) && s != "" && s[|s| - 1] == ':'
    ensures s == r + "::" && (r == "" || (Bare(r) && !IsValid(r)))
  {
    var p := Split(s, ':');
    SplitTail(s, ':');
    var s1 := s[..|s| - 1];
    assert s == s1 + [':'];
    SplitLast(s1, ':');
    var p1 := Split(s1, ':');
    assert p == p1 + [""] && p1[|p1| - 1] == p[k] == "";
    SplitTail(s1, ':');
    assert s1 == "" ==> |Split(s1, ':')| == 1;
    r := s1[..|s1| - 1];
    assert s1 == r + [':'];
    SplitLast(r, ':');
    var p2 := Split(r, ':');
    assert p == p2 + ["", ""];
    hide Split;
    assert s == r + "::";
    if r != "" { RestIsBare(r, p, k); }
  }

  lemma {:induction false} RestIsBare(r: string, p: seq<string>, k: nat)
    requires r != "" && p == Split(r, ':') + ["", ""] && HasGap(p, k)
    ensures Bare(r) && !IsValid(r)
  {
    var q := Split(r, ':');
    SplitHead(r, ':');
    SplitTail(r, ':');
    hide Split;
    assert k == |q| && forall i :: 0 <= i < |q| ==> q[i] == p[i];
    if q[0] == "" {
      assert k == 1 && |q| == 1;
      assert q == [""];
      OneEmpty(r);
    }
    assert |q| < 8;
    TooFew(r);
  }

  lemma OneEmpty(r: string)
    ensures Split(r, ':') == [""] ==> r == ""
  {
    SplitJoins(r, ':');
    assert Join([""], ':') == "";
  }

  /** A gap at the start only: the text is `::r`, and `r` has fewer than eight parts, none empty. */
  lemma {:induction false} GapAtStart(s: string, k: nat) returns (r: string)
    requires HasGap(Split(s, ':'), k) && s != "" && s[0] == ':' && s[|s| - 1] != ':'
    ensures s == "::" + r && Bare(r) && r != "" && !IsValid(r)
  {
    var p := Split(s, ':');
    SplitHead(s, ':');
    SplitTail(s, ':');
    assert p == [""] + Split(s[1..], ':');
    var s1 := s[1..];
    var p1 := Split(s1, ':');
    assert p1[0] == p[1] == "";
    SplitHead(s1, ':');
    assert s1 == "" ==> |s| == 1;
    r := s1[1..];
    assert p1 == [""] + Split(r, ':');
    hide Split;
    assert s == "::" + r;
    assert p == ["", ""] + Split(r, ':');
    RestIsBareToo(r, p, k);
  }

  lemma {:induction false} RestIsBareToo(r: string, p: seq<string>, k: nat)
    requires p == ["", ""] + Split(r, ':') && HasGap(p, k) && p[|p| - 1] != ""
    ensures r != "" && Bare(r) && !IsValid(r)
  {
    var q := Split(r, ':');
    SplitHead(r, ':');
    SplitTail(r, ':');
    hide Split;
    assert k == 1 && forall i :: 0 <= i < |q| ==> q[i] == p[i + 2];
    assert |q| < 8;
    TooFew(r);
  }

  lemma {:induction false} StripEnd(r: string)
    requires r == "" || Bare(r)
    ensures StripColons(r + "::") == r
  {
    var e, f := r + "::", r + ":";
    assert e[..|e| - 1] == f && f[..|f| - 1] == r;
    if r == "" {
      assert e == "::" && e[1..] == ":" && e[1..][1..] == "";
      assert DropWhile(e[1..], IsColon) == DropWhile(e[1..][1..], IsColon) == "";
      assert DropWhile(e, IsColon) == DropWhile(e[1..], IsColon);
    } else {
      assert e[0] == r[0] && DropWhile(e, IsColon) == e;
      assert DropEndWhile(r, IsColon) == r;
      assert DropEndWhile(e, IsColon) == DropEndWhile(f, IsColon) == r;
    }
  }

  lemma {:induction false} StripStart(r: string)
    requires r != "" && Bare(r)
    ensures StripColons("::" + r) == r
  {
    var b := "::" + r;
    assert b[1..] == ":" + r && b[1..][1..] == r;
    assert DropWhile(b, IsColon) == DropWhile(b[1..], IsColon) == DropWhile(r, IsColon);
  }

  lemma EmptyIsInvalid()
    ensures !IsValid("")
  {
  }

  /** Stripping its colons leaves an address an address exactly when it neither begins nor
      ends with one. */
  lemma {:induction false} StripInvalidates(s: string)
    requires IsValid(s)
    ensures IsValid(StripColons(s)) <==> Bare(s)
    ensures !Bare(s) ==> (|s| >= 2 && (s[..2] == "::" || s[|s| - 2..] == "::"))
  {
    var p := Split(s, ':');
    EmptyIsInvalid();
    if Bare(s) {
      StripBare(s);
    } else {
      if IsFull(p) { FullIsBare(s); }
      var k: nat :| 0 < k < |p| - 1 && HasGap(p, k);
      hide IsValid, Split, HasGap;
      if s[|s| - 1] == ':' {
        var r := GapAtEnd(s, k);
        StripEnd(r);
        assert s[|s| - 2..] == "::";
      } else {
        var r := GapAtStart(s, k);
        StripStart(r);
      }
    }
  }

  /** One group and a gap is an address. */
  lemma {:induction false} GroupAndGap(g: string)
    requires IsGroup(g)
    ensures IsValid(g + "::") && !Bare(g + "::")
  {
    var s := g + "::";
    assert IsFree(g, ':') by { forall i | 0 <= i < |g| ensures g[i] != ':' { assert IsHex(g[i]); } }
    SplitFree(g, ':');
    SplitLast(g, ':');
    SplitLast(g + ":", ':');
    assert s == g + ":" + ":";
    var p := Split(s, ':');
    assert p == [g, "", ""];
    hide Split;
    assert HasGap(p, 1);
  }

  // ----- Addresses, written out -----

  ghost predicate IsHexGroup(g: string) {
    1 <= |g| <= 4 && forall i :: 0 <= i < |g| ==> '0' <= g[i] <= '9' || 'a' <= g[i] <= 'f' || 'A' <= g[i] <= 'F'
  }

  ghost predicate AreGroups(gs: seq<string>) { forall i :: 0 <= i < |gs| ==> IsHexGroup(gs[i]) }

  /** Eight groups with colons between them. */
  ghost predicate IsEight(s: string) { exists gs :: |gs| == 8 && AreGroups(gs) && s == Join(gs, ':') }

  ghost predicate AreAround(s: string, a: seq<string>, b: seq<string>) {
    |a| + |b| <= 7 && AreGroups(a) && AreGroups(b) && s == Join(a, ':') + "::" + Join(b, ':')
  }

  /** At most seven groups around one `::`. */
  ghost predicate IsShort(s: string) { exists a, b :: AreAround(s, a, b) }

  lemma {:induction false} GroupWritten(g: string)
    ensures IsGroup(g) <==> IsHexGroup(g)
    ensures IsGroup(g) ==> g != "" && IsFree(g, ':')
  {
    forall i | 0 <= i < |g| ensures IsHex(g[i]) <==>
        '0' <= g[i] <= '9' || 'a' <= g[i] <= 'f' || 'A' <= g[i] <= 'F' {}
    if IsGroup(g) {
      forall i | 0 <= i < |g| ensures g[i] != ':' { assert IsHex(g[i]); }
    }
  }

  /** The parts of groups with colons between them; of none, the empty part. */
  function PartsOf(gs: seq<string>): seq<string> { if gs == [] then [""] else gs }

  lemma {:induction false} SplitJoined(gs: seq<string>)
    requires AreGroups(gs)
    ensures Split(Join(gs, ':'), ':') == PartsOf(gs)
  {
    if gs != [] {
      GroupWritten(gs[0]);
      if |gs| == 1 {
        SplitFree(gs[0], ':');
      } else {
        SplitJoined(gs[1..]);
        SplitFirst(gs[0], Join(gs[1..], ':'), ':');
      }
    }
  }

  lemma {:induction false} SplitAround(a: seq<string>, b: seq<string>)
    requires AreGroups(a) && AreGroups(b)
    ensures Split(Join(a, ':') + "::" + Join(b, ':'), ':') == PartsOf(a) + [""] + PartsOf(b)
  {
    var x, y := Join(a, ':'), Join(b, ':');
    SplitJoined(a);
    SplitJoined(b);
    SplitFirst("", y, ':');
    SplitMiddle(x, ":" + y, ':');
    assert "" + [':'] + y == ":" + y;
    assert x + [':'] + (":" + y) == x + "::" + y;
    hide Split, Join, AreGroups;
  }

  lemma {:induction false} SameParts(s: string, t: string)
    requires Split(s, ':') == Split(t, ':')
    ensures s == t
  {
    SplitJoins(s, ':');
    SplitJoins(t, ':');
  }

  lemma {:induction false} EightIsValid(s: string)
    ensures IsEight(s) <==> IsFull(Split(s, ':'))
  {
    var p := Split(s, ':');
    forall g ensures IsGroup(g) <==> IsHexGroup(g) { GroupWritten(g); }
    hide Split, Join, IsGroup, IsHexGroup;
    if IsFull(p) {
      SplitJoins(s, ':');
      assert AreGroups(p);
    }
    if IsEight(s) {
      var gs :| |gs| == 8 && AreGroups(gs) && s == Join(gs, ':');
      SplitJoined(gs);
    }
  }

  /** What stands before or behind the gap: nothing, or groups. */
  ghost predicate IsSide(p: seq<string>) {
    p == [""] || (p != [] && forall i :: 0 <= i < |p| ==> p[i] != "" && IsGroup(p[i]))
  }

  function Groups(p: seq<string>): nat { if p == [""] then 0 else |p| }

  lemma {:induction false} PartsAreSide(gs: seq<string>)
    requires AreGroups(gs)
    ensures IsSide(PartsOf(gs)) && Groups(PartsOf(gs)) == |gs|
  {
    forall i | 0 <= i < |gs| ensures gs[i] != "" && IsGroup(gs[i]) { GroupWritten(gs[i]); }
    hide IsGroup, IsHexGroup;
    if |gs| == 1 { assert gs[0] != ""; }
  }

  lemma {:induction false} SidesMakeGap(a: seq<string>, b: seq<string>)
    requires IsSide(a) && IsSide(b) && Groups(a) + Groups(b) <= 7
    ensures var p := a + [""] + b; 3 <= |p| <= 9 && HasGap(p, |a|)
  {
    hide IsGroup;
    var p, k := a + [""] + b, |a|;
    assert p[0] == a[0] && p[|p| - 1] == b[|b| - 1] && p[k] == "";
    forall i | 0 <= i < |p| && i != k ensures p[i] == if i < k then a[i] else b[i - k - 1] {}
    assert p[0] == "" <==> a == [""];
    assert p[|p| - 1] == "" <==> b == [""];
    assert Before(p, k) == Groups(a) && Behind(p, k) == Groups(b);
    forall i | 0 <= i < |p| ensures p[i] == "" || IsGroup(p[i]) {}
  }

  lemma {:induction false} ShortIsValid(s: string, a: seq<string>, b: seq<string>) returns (k: nat)
    requires AreAround(s, a, b)
    ensures var p := Split(s, ':'); 3 <= |p| <= 9 && 0 < k < |p| - 1 && HasGap(p, k)
  {
    SplitAround(a, b);
    PartsAreSide(a);
    PartsAreSide(b);
    k := |PartsOf(a)|;
    hide Split, Join, IsSide, AreGroups, PartsOf;
    SidesMakeGap(PartsOf(a), PartsOf(b));
  }

  lemma {:induction false} GapHasSides(p: seq<string>, k: nat) returns (a: seq<string>, b: seq<string>)
    requires HasGap(p, k)
    ensures AreGroups(a) && AreGroups(b) && |a| + |b| <= 7 && p == PartsOf(a) + [""] + PartsOf(b)
  {
    a, b := if p[0] == "" then [] else p[..k], if p[|p| - 1] == "" then [] else p[k + 1..];
    hide IsGroup, IsHexGroup;
    forall i | 0 <= i < |a| ensures IsHexGroup(a[i]) {
      assert a[i] == p[i] && p[i] != "";
      GroupWritten(p[i]);
    }
    forall i | 0 <= i < |b| ensures IsHexGroup(b[i]) {
      assert b[i] == p[k + 1 + i] && b[i] != "";
      GroupWritten(b[i]);
    }
    assert PartsOf(a) == p[..k] && PartsOf(b) == p[k + 1..];
  }

  lemma {:induction false} ValidIsShort(s: string, k: nat)
    requires HasGap(Split(s, ':'), k)
    ensures IsShort(s)
  {
    var a, b := GapHasSides(Split(s, ':'), k);
    hide Split, Join, AreGroups, HasGap, PartsOf;
    SplitAround(a, b);
    SameParts(s, Join(a, ':') + "::" + Join(b, ':'));
    assert AreAround(s, a, b);
  }

  /** An address is eight groups of one to four hexadecimal digits, or at most seven around
      one `::`. */
  lemma {:induction false} ValidWritten(s: string)
    ensures IsValid(s) <==> IsEight(s) || IsShort(s)
  {
    var p := Split(s, ':');
    EightIsValid(s);
    hide Split, HasGap, IsEight, IsFull;
    if IsShort(s) {
      var a, b :| AreAround(s, a, b);
      var k := ShortIsValid(s, a, b);
    }
    if k :| 0 < k < |p| - 1 && HasGap(p, k) { ValidIsShort(s, k); }
    assert IsFull(p) ==> |p| == 8 by { EightParts(p); }
  }

  lemma EightParts(p: seq<string>)
    ensures IsFull(p) ==> |p| == 8
  {
  }
}
