/** What a target text stands for, said character by character. */
module TargetForms {
  import opened Options
  import opened Text
  import opened Target

  // ----- The words of the grammar -----

  ghost predicate IsSmall(c: char) { 'a' <= c <= 'z' || '0' <= c <= '9' || c == '_' }

  /** 5 to 32 small letters, digits and underscores that begin with a letter, do not end in an
      underscore and have no two underscores in a row. */
  ghost predicate Grammar(s: string) {
    && 5 <= |s| <= 32 && (forall i :: 0 <= i < |s| ==> IsSmall(s[i]))
    && 'a' <= s[0] <= 'z' && s[|s| - 1] != '_'
    && forall i, j :: 0 <= i < |s| && j == i + 1 && j < |s| ==> !(s[i] == '_' && s[j] == '_')
  }

  /** 3 to 15 digits that are not all zero. */
  ghost predicate IdText(s: string) {
    3 <= |s| <= 15 && (forall i :: 0 <= i < |s| ==> '0' <= s[i] <= '9') && exists i :: 0 <= i < |s| && s[i] != '0'
  }

  ghost function Reads(k: string): Option<Parsed> {
    if IdText(k) then Some(UserId(k)) else if Grammar(k) then Some(Username(k)) else None
  }

  ghost function Small(c: char): string {
    if 'A' <= c <= 'Z' then [(c as int - 'A' as int + 'a' as int) as char]
    else if IsSmall(c) || c == '.' then [c]
    else ""
  }

  /** The small form of the letters, digits, underscores and dots of a text. */
  ghost function Left(s: string): string { if s == "" then "" else Small(s[0]) + Left(s[1..]) }

  lemma {:induction false} HandleIsGrammar(s: string)
    ensures IsHandle(s) <==> Grammar(s)
  {
    if Grammar(s) {
      forall i | 0 < i < |s| ensures !(s[i - 1] == '_' && s[i] == '_') {
        var h := i - 1;
        assert !(s[h] == '_' && s[i] == '_');
      }
    }
  }

  lemma {:induction false} AcceptedReads(k: string)
    ensures Accepted(k) == Reads(k)
  {
    HandleIsGrammar(k);
    hide IsHandle, Grammar;
  }

  lemma {:induction false} LeftIsKept(s: string)
    ensures Left(s) == Keep(Lower(s), IsKept)
  {
    if s != "" {
      LeftIsKept(s[1..]);
      assert Lower(s)[0] == LowerChar(s[0]) && Lower(s)[1..] == Lower(s[1..]);
    }
  }

  lemma {:induction false} LeftOfWord(u: string)
    requires All(u, IsWord)
    ensures Left(u) == Lower(u)
  {
    LeftIsKept(u);
    LowerWord(u);
    KeepsAll(Lower(u), IsKept);
  }

  // ----- Link prefixes in either case -----

  /** `w` is `p` with some of its letters capital. */
  ghost predicate Spells(w: string, p: string) {
    |w| == |p| && forall i :: 0 <= i < |w| ==> w[i] == p[i] || ('A' <= w[i] <= 'Z' && w[i] as int + 32 == p[i] as int)
  }

  ghost predicate IsLinkHead(w: string, scheme: string, host: string) {
    && (scheme == "" || scheme == "http://" || scheme == "https://")
    && (host == "t.me" || host == "telegram.me" || host == "telegram.dog")
    && Spells(w, scheme + host + "/")
  }

  lemma {:induction false} SpellsLower(w: string, p: string)
    requires forall i :: 0 <= i < |p| ==> IsLinkChar(p[i])
    ensures Spells(w, p) <==> Lower(w) == p
  {
    if Lower(w) == p {
      forall i | 0 <= i < |w| ensures w[i] == p[i] || ('A' <= w[i] <= 'Z' && w[i] as int + 32 == p[i] as int) {
        assert Lower(w)[i] == p[i];
      }
    }
  }

  lemma {:induction false} HeadIsPrefix(w: string, scheme: string, host: string)
    ensures IsLinkHead(w, scheme, host) <==> IsLinkPrefix(w, scheme, host)
  {
    if scheme in {"", "http://", "https://"} && IsLinkHost(host) {
      HostIsKept(host);
      var p := scheme + host + "/";
      assert forall i :: 0 <= i < |scheme| ==> IsLinkChar(scheme[i]);
      hide Lower, IsLinkHost, Spells;
      assert forall i :: 0 <= i < |p| ==> IsLinkChar(p[i]);
      SpellsLower(w, p);
    }
  }

  ghost predicate IsLinkText(text: string) {
    exists i: nat, scheme, host :: i <= |text| && IsLinkHead(text[..i], scheme, host)
  }

  // ----- Cutting the handle out -----

  lemma {:induction false} DropAppend(s: string, t: string, p: char -> bool)
    requires t == "" || !p(t[0])
    ensures DropWhile(s + t, p) == DropWhile(s, p) + t
  {
    if s == "" {
      assert s + t == t;
    } else if p(s[0]) {
      DropAppend(s[1..], t, p);
      assert (s + t)[1..] == s[1..] + t;
    }
  }

  lemma {:induction false} UntilThrough(s: string, t: string, stops: set<char>)
    requires !HasAny(s, stops)
    ensures Until(s + t, stops) == s + Until(t, stops)
  {
    if s == "" {
      assert s + t == t;
    } else {
      assert s[0] !in stops;
      assert forall i :: 0 <= i < |s| - 1 ==> s[1..][i] == s[i + 1];
      UntilThrough(s[1..], t, stops);
      assert (s + t)[0] == s[0] && (s + t)[1..] == s[1..] + t;
      assert Until(s + t, stops) == [s[0]] + Until(s[1..] + t, stops);
      hide Until, HasAny;
      assert [s[0]] + (s[1..] + Until(t, stops)) == s + Until(t, stops);
    }
  }

  lemma {:induction false} DropKeeps(s: string)
    ensures Keep(DropWhile(s, IsAt), IsKept) == Keep(s, IsKept)
  {
    if s != "" && s[0] == '@' { DropKeeps(s[1..]); }
  }

  lemma {:induction false} DropFree(s: string, stops: set<char>)
    requires !HasAny(s, stops)
    ensures !HasAny(DropWhile(s, IsAt), stops)
  {
    if s != "" && s[0] == '@' {
      assert forall i :: 0 <= i < |s| - 1 ==> s[1..][i] == s[i + 1];
      DropFree(s[1..], stops);
    }
  }

  /** A handle up to the first slash or question mark. */
  lemma {:induction false} SegmentEnds(s: string, t: string)
    requires !HasAny(s, {'/', '?'}) && (t == "" || t[0] in {'/', '?'})
    ensures Keep(Segment(s + t), IsKept) == Keep(s, IsKept)
  {
    DropAppend(s, t, IsAt);
    DropFree(s, {'/', '?'});
    UntilUntil(DropWhile(s, IsAt) + t, {'/'}, {'?'});
    assert {'/'} + {'?'} == {'/', '?'};
    UntilAppend(DropWhile(s, IsAt), t, {'/', '?'});
    DropKeeps(s);
    hide DropWhile, Until, Keep, HasAny;
  }

  /** What may stand behind a handle in a link. */
  ghost predicate Ends(scheme: string, u: string, tail: string) {
    && (forall i :: 0 <= i < |u| ==> u[i] != '/' && u[i] != '?' && (scheme != "" ==> u[i] != '#'))
    && (tail == "" || tail[0] == '?' || (tail[0] == '/' && (scheme == "" || u != "")) ||
        (scheme != "" && tail[0] == '#'))
  }

  lemma {:induction false} LowerFree(u: string, stops: set<char>)
    requires stops <= {'/', '?', '#'} && forall i :: 0 <= i < |u| ==> u[i] !in stops
    ensures !HasAny(Lower(u), stops)
  {
  }

  lemma {:induction false} TailLower(tail: string)
    requires tail != "" && tail[0] in {'/', '?', '#'}
    ensures Lower(tail) != "" && Lower(tail)[0] == tail[0]
  {
  }

  lemma {:induction false} PathEnds(u: string, tail: string) returns (q: string)
    requires Ends("http://", u, tail)
    ensures PathOf(Lower(u + tail)) == Lower(u) + q && (q == "" || q[0] == '/')
  {
    var l, t := Lower(u), Lower(tail);
    LowerAppend(u, tail);
    LowerFree(u, {'?', '#'});
    LowerFree(u, {'/'});
    if tail != "" { TailLower(tail); }
    UntilThrough(l, t, {'?', '#'});
    q := Until(t, {'?', '#'});
    hide Lower, HasAny;
    assert u == "" <==> l == "";
    assert l != "" ==> l[0] != '/' by { assert l != "" && l[0] == '/' ==> HasAny(l, {'/'}) by { FirstIsAny(l, '/'); } }
    if l == "" { assert l + q == q == ""; } else { assert (l + q)[0] == l[0]; }
  }

  lemma FirstIsAny(l: string, c: char)
    ensures l != "" && l[0] == c ==> HasAny(l, {c})
  {
  }

  lemma {:induction false} TrimmedIsLeft(scheme: string, u: string, tail: string)
    requires Ends(scheme, u, tail)
    ensures Trimmed(scheme, u + tail) == Left(u)
  {
    LeftIsKept(u);
    LowerFree(u, {'/', '?'});
    if scheme == "" {
      LowerAppend(u, tail);
      if tail != "" { TailLower(tail); }
      hide Lower, Keep, Segment, HasAny, Left;
      SegmentEnds(Lower(u), Lower(tail));
    } else {
      var q := PathEnds(u, tail);
      hide Lower, Keep, Segment, HasAny, Left, PathOf;
      SegmentEnds(Lower(u), q);
    }
  }

  // ----- What a text stands for -----

  ghost predicate IsBlank(c: char) {
    c in {'\t', '\n', '\U{b}', '\U{c}', '\r', '\U{1c}', '\U{1d}', '\U{1e}', '\U{1f}', ' ', '\U{85}', '\U{a0}',
        '\U{1680}',
          '\U{2000}', '\U{2001}', '\U{2002}', '\U{2003}', '\U{2004}', '\U{2005}', '\U{2006}', '\U{2007}', '\U{2008}',
          '\U{2009}', '\U{200a}', '\U{2028}', '\U{2029}', '\U{202f}', '\U{205f}', '\U{3000}'}
  }

  /** 1 to 128 characters, none of them a control character, and no blank at either end. */
  ghost predicate IsFine(text: string) {
    && 0 < |text| <= 128 && !IsBlank(text[0]) && !IsBlank(text[|text| - 1])
    && forall i :: 0 <= i < |text| ==> text[i] > '\U{1f}' && text[i] != '\U{7f}'
  }

  lemma {:induction false} BlankIsSpace(c: char)
    ensures IsBlank(c) <==> IsSpace(c)
  {
  }

  lemma {:induction false} FineTail(w: string, v: string)
    requires IsFine(w + v)
    ensures IsTail(v)
  {
    var text := w + v;
    BlankIsSpace(text[|text| - 1]);
    hide IsBlank, IsSpace;
    forall i | 0 <= i < |v| ensures IsPlain(v[i]) { assert text[|w| + i] == v[i]; }
    if v != "" { assert text[|text| - 1] == v[|v| - 1]; }
  }

  /** A link: what remains of the handle between its head and the next slash, question mark or,
      with a scheme, fragment is read. */
  lemma {:induction false} LinkReads(w: string, scheme: string, host: string, u: string, tail: string)
    requires IsLinkHead(w, scheme, host) && Ends(scheme, u, tail) && IsFine(w + (u + tail))
    ensures ParseTarget(Some(w + (u + tail))) == Reads(Left(u)) && Normalized(w + (u + tail)) == Some(Left(u))
  {
    HeadIsPrefix(w, scheme, host);
    FineTail(w, u + tail);
    TrimmedIsLeft(scheme, u, tail);
    AcceptedReads(Left(u));
    assert |w + (u + tail)| <= 128;
    hide ParseTarget, Normalized, IsTail, IsFine, Trimmed, Reads, Left, Accepted, IsLinkPrefix, IsLinkHead, Ends;
    LinkIsTrimmed(w, scheme, host, u + tail);
    LinkNormalizes(w, scheme, host, u + tail);
  }

  /** Any other text is normalised up to its first slash or question mark. */
  lemma {:induction false} OthersNormalized(u: string, tail: string)
    requires Ends("", u, tail) && !IsLinkText(u + tail) && !IsHttp(Lower(u + tail))
    requires u + tail == "" || (!IsBlank((u + tail)[0]) && !IsBlank((u + tail)[|u + tail| - 1]))
    ensures Normalized(u + tail) == Some(Left(u))
  {
    var v := u + tail;
    if v != "" { BlankIsSpace(v[0]); BlankIsSpace(v[|v| - 1]); }
    hide IsBlank, IsSpace;
    StripEnds(v);
    NoLinkText(v);
    TrimmedIsLeft("", u, tail);
    assert !IsHost(Lower(v));
    hide Strip, Keep, Segment, Lower, Left, IsLinkText, StartsWith, IsHttp, Ends;
    assert WithoutHost(Lower(v)) == Lower(v);
  }

  ghost predicate IsOfWord(c: char) { 'a' <= c <= 'z' || 'A' <= c <= 'Z' || '0' <= c <= '9' || c == '_' }

  lemma {:induction false} WordWritten(c: char)
    ensures IsWord(c) <==> IsOfWord(c)
  {
  }

  lemma {:induction false} NoLinkText(text: string)
    ensures IsLink(text) ==> IsLinkText(text)
  {
    var v := Lower(text);
    if IsLink(text) {
      var scheme := if IsHost(v) then "" else if StartsWith(v, "http://") && IsHost(v[7..]) then "http://"
          else "https://";
      var x := v[|scheme|..];
      var host := if StartsWith(x, "t.me/") then "t.me" else if StartsWith(x, "telegram.me/") then "telegram.me"
          else "telegram.dog";
      var i := |scheme| + |host| + 1;
      HeadIsTaken(text, scheme, host);
    }
  }

  lemma {:induction false} HeadIsTaken(text: string, scheme: string, host: string)
    requires scheme in {"", "http://", "https://"} && IsLinkHost(host)
    requires StartsWith(Lower(text), scheme) && StartsWith(Lower(text)[|scheme|..], host + "/")
    ensures IsLinkText(text)
  {
    var v := Lower(text);
    var i := |scheme| + |host| + 1;
    assert v[..i] == scheme + host + "/" by {
      assert v[..i] == v[..|scheme|] + v[|scheme|..][..|host| + 1];
    }
    assert Lower(text[..i]) == v[..i];
    HeadIsPrefix(text[..i], scheme, host);
    hide Lower, IsLinkPrefix, IsLinkHead, StartsWith;
    assert IsLinkHead(text[..i], scheme, host);
  }

  /** Any other text: a word behind @ signs is read, everything else is refused, foreign links
      included. */
  lemma {:induction false} BareReads(ats: string, u: string)
    requires IsFine(ats + u) && !IsLinkText(ats + u)
    requires (forall i :: 0 <= i < |ats| ==> ats[i] == '@') && (u == "" || u[0] != '@')
    ensures ParseTarget(Some(ats + u)) == if forall i :: 0 <= i < |u| ==> IsOfWord(u[i]) then Reads(Left(u)) else None
  {
    var text := ats + u;
    NoLinkText(text);
    DropAts(ats, u);
    FineStrip(text);
    forall i | 0 <= i < |u| ensures IsWord(u[i]) <==> IsOfWord(u[i]) { WordWritten(u[i]); }
    assert |text| <= 128;
    hide IsFine, IsLinkText, DropWhile, Strip, IsLink, ParseTarget, Reads, IsWord, IsOfWord;
    if All(u, IsWord) {
      BareForm(text);
      WordReads(u);
    } else if ParseTarget(Some(text)).Some? {
      BareIsNeverTrimmed(text);
    }
  }

  lemma {:induction false} WordReads(u: string)
    requires All(u, IsWord)
    ensures WordTarget(u) == Reads(Left(u))
  {
    LeftOfWord(u);
    AcceptedReads(Lower(u));
    DecidedWord(u);
    DecidedIsAccepted(Lower(u));
    hide Left, Reads, Lower, Accepted, Decided, WordTarget;
  }

  lemma {:induction false} DropAts(ats: string, u: string)
    requires (forall i :: 0 <= i < |ats| ==> ats[i] == '@') && (u == "" || u[0] != '@')
    ensures DropWhile(ats + u, IsAt) == u
  {
    if ats == "" {
      assert ats + u == u;
    } else {
      DropAts(ats[1..], u);
      assert (ats + u)[1..] == ats[1..] + u;
    }
  }

  lemma {:induction false} FineStrip(text: string)
    requires IsFine(text)
    ensures Strip(text) == text
  {
    BlankIsSpace(text[0]);
    BlankIsSpace(text[|text| - 1]);
    hide IsBlank, IsSpace;
    StripEnds(text);
  }

  // ----- Blanks, and what is refused -----

  lemma {:induction false} DropBlanks(a: string, text: string)
    requires (forall i :: 0 <= i < |a| ==> IsBlank(a[i])) && (text == "" || !IsBlank(text[0]))
    ensures DropWhile(a + text, IsSpace) == text
  {
    hide IsSpace, IsBlank;
    if a == "" {
      assert a + text == text;
      if text != "" { BlankIsSpace(text[0]); }
    } else {
      BlankIsSpace(a[0]);
      DropBlanks(a[1..], text);
      assert (a + text)[1..] == a[1..] + text;
    }
  }

  lemma {:induction false} DropEndBlanks(text: string, b: string)
    requires (forall i :: 0 <= i < |b| ==> IsBlank(b[i])) && (text == "" || !IsBlank(text[|text| - 1]))
    ensures DropEndWhile(text + b, IsSpace) == text
  {
    hide IsSpace, IsBlank;
    if b == "" {
      assert text + b == text;
      if text != "" { BlankIsSpace(text[|text| - 1]); }
    } else {
      BlankIsSpace(b[|b| - 1]);
      DropEndBlanks(text, b[..|b| - 1]);
      assert (text + b)[..|text + b| - 1] == text + b[..|b| - 1];
    }
  }

  /** Blanks around a text do not matter. */
  lemma {:induction false} BlanksDoNotMatter(a: string, text: string, b: string)
    requires (forall i :: 0 <= i < |a| ==> IsBlank(a[i])) && (forall i :: 0 <= i < |b| ==> IsBlank(b[i]))
    requires text == "" || (!IsBlank(text[0]) && !IsBlank(text[|text| - 1]))
    ensures ParseTarget(Some(a + text + b)) == ParseTarget(Some(text)) && Normalized(a + text + b) == Normalized(text)
  {
    hide IsBlank, IsSpace;
    StripBlanks(a, text, b);
    StripBlanks("", text, "");
    assert "" + text + "" == text;
    hide DropWhile, DropEndWhile, IsHttp, WithoutHost, Segment, Keep, NetlocAndPath, Lower;
  }

  lemma {:induction false} StripBlanks(a: string, text: string, b: string)
    requires (forall i :: 0 <= i < |a| ==> IsBlank(a[i])) && (forall i :: 0 <= i < |b| ==> IsBlank(b[i]))
    requires text == "" || (!IsBlank(text[0]) && !IsBlank(text[|text| - 1]))
    ensures Strip(a + text + b) == text
  {
    hide IsBlank, IsSpace, DropWhile, DropEndWhile;
    if text == "" {
      var c := a + text + b;
      assert forall i :: 0 <= i < |c| ==> IsBlank(c[i]);
      DropBlanks(c, "");
      assert c + "" == c;
      DropEndBlanks("", "");
      assert "" + "" == "";
    } else {
      assert a + text + b == a + (text + b);
      assert (text + b)[0] == text[0];
      DropBlanks(a, text + b);
      DropEndBlanks(text, b);
    }
  }

  /** Nothing, a blank text, one of more than 128 characters and one with a control character
      are refused. */
  lemma {:induction false} Refused(text: string)
    requires text == "" || (!IsBlank(text[0]) && !IsBlank(text[|text| - 1]))
    ensures ParseTarget(None) == None && (!IsFine(text) ==> ParseTarget(Some(text)) == None)
  {
    hide IsBlank, Strip, Normalized, Decided, IsLink, IsUrl;
    StripBlanks("", text, "");
    assert "" + text + "" == text;
    PlainWritten(text);
    hide All, IsPlain;
  }

  lemma {:induction false} PlainWritten(text: string)
    ensures All(text, IsPlain) <==> forall i :: 0 <= i < |text| ==> text[i] > '\U{1f}' && text[i] != '\U{7f}'
  {
  }

  /** A bracket without its partner in the host is an error. */
  lemma {:induction false} BracketRaises(scheme: string, net: string, rest: string)
    requires scheme == "http://" || scheme == "https://"
    requires forall i :: 0 <= i < |net| ==> net[i] !in {'/', '?', '#', '\t', '\r', '\n'} && !('A' <= net[i] <= 'Z')
    requires rest == "" || rest[0] in {'/', '?', '#'}
    requires (exists i :: 0 <= i < |net| && net[i] == '[') != (exists i :: 0 <= i < |net| && net[i] == ']')
    requires var v := scheme + (net + rest); !IsBlank(v[|v| - 1])
    ensures Normalized(scheme + (net + rest)) == None
  {
    var v := scheme + (net + rest);
    HttpStrips(scheme, net + rest);
    HttpLower(scheme, net, rest);
    if rest != "" { TailLower(rest); }
    hide Strip, Lower, IsHttp, Keep, Until, HasAny, StartsWith, DropWhile, IsBlank, IsSpace;
    SplitScheme(Lower(v), scheme, net + Lower(rest));
    BracketHost(net, Lower(rest));
    hide IsRejected, IsLink;
  }

  /** Tabs and line breaks inside a link with a scheme do not matter. */
  lemma {:induction false} BreaksDoNotMatter(scheme: string, a: string, c: char, b: string)
    requires (scheme == "http://" || scheme == "https://") && (c == '\t' || c == '\r' || c == '\n')
    requires b != "" && !IsBlank(b[|b| - 1])
    ensures Normalized(scheme + (a + [c] + b)) == Normalized(scheme + (a + b))
  {
    var x, y := a + [c] + b, a + b;
    assert (scheme + x)[|scheme + x| - 1] == b[|b| - 1] && (scheme + y)[|scheme + y| - 1] == b[|b| - 1];
    HttpSplits(scheme, x);
    HttpSplits(scheme, y);
    BreaksDropped(a, c, b);
    hide Lower, Keep, Until, DropWhile, HasAny, WithoutHost, Segment, IsBlank, Strip, StartsWith, IsHttp;
  }

  /** A link with a scheme is split behind it. */
  lemma {:induction false} HttpSplits(scheme: string, rest: string)
    requires (scheme == "http://" || scheme == "https://") && rest != "" && !IsBlank(rest[|rest| - 1])
    ensures IsHttp(Lower(Strip(scheme + rest)))
    ensures var v := Lower(Strip(scheme + rest)); v[if StartsWith(v, "http://") then 7 else 8..] == Lower(rest)
  {
    assert (scheme + rest)[|scheme + rest| - 1] == rest[|rest| - 1];
    hide IsBlank, Strip;
    HttpStrips(scheme, rest);
    LowerAppend(scheme, rest);
    assert Lower(scheme) == scheme;
    hide Lower;
    SplitScheme(Lower(scheme + rest), scheme, Lower(rest));
  }

  lemma {:induction false} BreaksDropped(a: string, c: char, b: string)
    requires c == '\t' || c == '\r' || c == '\n'
    ensures Keep(Lower(a + [c] + b), IsUnbroken) == Keep(Lower(a + b), IsUnbroken)
  {
    LowerAppend(a + [c], b);
    LowerAppend(a, [c]);
    LowerAppend(a, b);
    assert Lower([c]) == [c] && Keep([c], IsUnbroken) == [];
    KeepAppend(Lower(a) + [c], Lower(b), IsUnbroken);
    KeepAppend(Lower(a), [c], IsUnbroken);
    KeepAppend(Lower(a), Lower(b), IsUnbroken);
    hide Keep, Lower;
    assert Keep(Lower(a), IsUnbroken) + [] == Keep(Lower(a), IsUnbroken);
  }

  lemma {:induction false} HttpStrips(scheme: string, rest: string)
    requires scheme == "http://" || scheme == "https://"
    requires var v := scheme + rest; !IsBlank(v[|v| - 1])
    ensures Strip(scheme + rest) == scheme + rest
  {
    var v := scheme + rest;
    BlankIsSpace(v[|v| - 1]);
    hide IsBlank;
    assert v[0] == 'h';
    StripEnds(v);
  }

  lemma {:induction false} HttpLower(scheme: string, net: string, rest: string)
    requires scheme == "http://" || scheme == "https://"
    requires forall i :: 0 <= i < |net| ==> !('A' <= net[i] <= 'Z')
    ensures Lower(scheme + (net + rest)) == scheme + (net + Lower(rest))
  {
    LowerAppend(scheme, net + rest);
    LowerAppend(net, rest);
    assert Lower(scheme) == scheme;
    assert Lower(net) == net;
  }

  lemma {:induction false} BracketHost(net: string, rest: string)
    requires forall i :: 0 <= i < |net| ==> net[i] !in {'/', '?', '#', '\t', '\r', '\n'}
    requires rest == "" || rest[0] in {'/', '?', '#'}
    requires (exists i :: 0 <= i < |net| && net[i] == '[') != (exists i :: 0 <= i < |net| && net[i] == ']')
    ensures var netloc := Until(Keep(net + rest, IsUnbroken), {'/', '?', '#'});
            netloc == net && HasAny(netloc, {'['}) != HasAny(netloc, {']'})
  {
    KeepAppend(net, rest, IsUnbroken);
    KeepsAll(net, IsUnbroken);
    assert rest != "" ==> IsUnbroken(rest[0]) && Keep(rest, IsUnbroken)[0] == rest[0];
    UntilAppend(net, Keep(rest, IsUnbroken), {'/', '?', '#'});
    hide Keep, Until;
  }
}
