/** The few Python string operations the parsers use. Case and digits are those of ASCII. */
module Text {

  function LowerChar(c: char): char { if 'A' <= c <= 'Z' then (c as int + 32) as char else c }

  function Lower(s: string): (r: string)
    ensures |r| == |s| && forall i :: 0 <= i < |s| ==> r[i] == LowerChar(s[i])
  {
    seq(|s|, i requires 0 <= i < |s| => LowerChar(s[i]))
  }

  predicate IsSpace(c: char) {
    || '\t' <= c <= '\r' || '\U{1c}' <= c <= ' ' || c == '\U{85}' || c == '\U{a0}' || c == '\U{1680}'
    || '\U{2000}' <= c <= '\U{200a}' || c == '\U{2028}' || c == '\U{2029}' || c == '\U{202f}'
    || c == '\U{205f}' || c == '\U{3000}'
  }

  function DropWhile(s: string, p: char -> bool): string {
    if s != [] && p(s[0]) then DropWhile(s[1..], p) else s
  }

  function DropEndWhile(s: string, p: char -> bool): string {
    if s != [] && p(s[|s| - 1]) then DropEndWhile(s[..|s| - 1], p) else s
  }

  function Strip(s: string): string { DropEndWhile(DropWhile(s, IsSpace), IsSpace) }

  /** What comes before the first character of `stops`. */
  function Until(s: string, stops: set<char>): (r: string)
    ensures |r| <= |s|
  {
    if s == [] || s[0] in stops then [] else [s[0]] + Until(s[1..], stops)
  }

  function Keep(s: string, p: char -> bool): string {
    if s == [] then [] else (if p(s[0]) then [s[0]] else []) + Keep(s[1..], p)
  }

  predicate StartsWith(s: string, prefix: string) { |prefix| <= |s| && s[..|prefix|] == prefix }

  predicate All(s: string, p: char -> bool) { forall i :: 0 <= i < |s| ==> p(s[i]) }

  predicate HasAny(s: string, chars: set<char>) { exists i :: 0 <= i < |s| && s[i] in chars }

  predicate IsDigit(c: char) { '0' <= c <= '9' }

  /** `[A-Za-z0-9_]` */
  predicate IsWord(c: char) { 'a' <= LowerChar(c) <= 'z' || IsDigit(c) || c == '_' }

  lemma LowerAppend(s: string, t: string)
    ensures Lower(s + t) == Lower(s) + Lower(t)
  {
  }

  lemma NoPrefix(s: string, prefix: string, i: nat, p: char -> bool)
    requires All(s, p) && i < |prefix| && !p(prefix[i])
    ensures !StartsWith(s, prefix)
  {
    assert |prefix| <= |s| ==> s[..|prefix|][i] == s[i];
  }

  lemma StripEnds(s: string)
    requires s != [] ==> !IsSpace(s[0]) && !IsSpace(s[|s| - 1])
    ensures Strip(s) == s
  {
  }

  lemma {:induction false} DropWhileFree(s: string, p: char -> bool)
    ensures var r := DropWhile(s, p); r == [] || !p(r[0])
  {
    if s != [] && p(s[0]) { DropWhileFree(s[1..], p); }
  }

  lemma {:induction false} UntilAppend(s: string, t: string, stops: set<char>)
    requires !HasAny(s, stops) && (t == [] || t[0] in stops)
    ensures Until(s + t, stops) == s
  {
    if s == [] {
      assert s + t == t;
    } else {
      assert s[0] !in stops;
      assert forall i :: 0 <= i < |s| - 1 ==> s[1..][i] == s[i + 1];
      UntilAppend(s[1..], t, stops);
      assert (s + t)[1..] == s[1..] + t;
    }
  }

  lemma UntilNone(s: string, stops: set<char>)
    requires !HasAny(s, stops)
    ensures Until(s, stops) == s
  {
    UntilAppend(s, [], stops);
    assert s + [] == s;
  }

  lemma {:induction false} KeepHolds(s: string, p: char -> bool)
    ensures All(Keep(s, p), p) && |Keep(s, p)| <= |s|
  {
    if s != [] { KeepHolds(s[1..], p); }
  }

  lemma {:induction false} KeepAppend(s: string, t: string, p: char -> bool)
    ensures Keep(s + t, p) == Keep(s, p) + Keep(t, p)
  {
    if s == [] {
      assert s + t == t;
    } else {
      KeepAppend(s[1..], t, p);
      assert (s + t)[0] == s[0] && (s + t)[1..] == s[1..] + t;
      var head := if p(s[0]) then [s[0]] else [];
      assert Keep(s + t, p) == head + Keep(s[1..] + t, p);
      assert Keep(s, p) == head + Keep(s[1..], p);
      hide Keep;
    }
  }

  /** Filtering drops nothing exactly when everything passes. */
  lemma {:induction false} KeepsAll(s: string, p: char -> bool)
    ensures Keep(s, p) == s <==> All(s, p)
  {
    KeepHolds(s, p);
    if s != [] && p(s[0]) {
      KeepsAll(s[1..], p);
      assert s == [s[0]] + s[1..];
      if All(s, p) {
        assert forall i :: 0 <= i < |s| - 1 ==> s[1..][i] == s[i + 1];
      }
    } else if s != [] {
      KeepHolds(s[1..], p);
    }
  }

  // ----- Splitting -----

  /** `split` at a separator: the parts between its occurrences, empty ones included. */
  function Split(s: string, sep: char): (r: seq<string>)
    ensures r != []
  {
    if s == [] then [""]
    else
      var rest := Split(s[1..], sep);
      if s[0] == sep then [""] + rest else [[s[0]] + rest[0]] + rest[1..]
  }

  function Join(parts: seq<string>, sep: char): string {
    if parts == [] then [] else if |parts| == 1 then parts[0] else parts[0] + [sep] + Join(parts[1..], sep)
  }

  predicate IsFree(s: string, sep: char) { forall i :: 0 <= i < |s| ==> s[i] != sep }

  lemma {:induction false} SplitFirst(a: string, rest: string, sep: char)
    requires IsFree(a, sep)
    ensures Split(a + [sep] + rest, sep) == [a] + Split(rest, sep)
  {
    var s := a + [sep] + rest;
    if a == [] {
      assert s[1..] == rest;
    } else {
      SplitFirst(a[1..], rest, sep);
      assert s[1..] == a[1..] + [sep] + rest;
      assert [a[0]] + a[1..] == a;
      assert ([a[1..]] + Split(rest, sep))[1..] == Split(rest, sep);
    }
  }

  lemma SplitStep(s: string, sep: char)
    requires s != ""
    ensures var rest := Split(s[1..], sep);
            Split(s, sep) == if s[0] == sep then [""] + rest else [[s[0]] + rest[0]] + rest[1..]
  {
  }

  lemma {:induction false} SplitMiddle(a: string, rest: string, sep: char)
    ensures Split(a + [sep] + rest, sep) == Split(a, sep) + Split(rest, sep)
  {
    hide Split;
    var s := a + [sep] + rest;
    SplitStep(s, sep);
    if a == [] {
      assert s[1..] == rest && Split([], sep) == [""] by { SplitNothing(sep); }
    } else {
      SplitMiddle(a[1..], rest, sep);
      SplitStep(a, sep);
      assert s[0] == a[0] && s[1..] == a[1..] + [sep] + rest;
    }
  }

  lemma SplitNothing(sep: char)
    ensures Split([], sep) == [""]
  {
  }

  lemma {:induction false} SplitFree(a: string, sep: char)
    requires IsFree(a, sep)
    ensures Split(a, sep) == [a]
  {
    if a != [] {
      SplitFree(a[1..], sep);
      assert [a[0]] + a[1..] == a;
    }
  }

  lemma {:induction false} SplitJoins(s: string, sep: char)
    ensures Join(Split(s, sep), sep) == s
  {
    if s != [] { SplitJoins(s[1..], sep); }
  }

  lemma {:induction false} SplitLast(s: string, sep: char)
    ensures Split(s + [sep], sep) == Split(s, sep) + [""]
  {
    if s == [] {
      assert [sep][1..] == [];
      assert s + [sep] == [sep];
      assert [""] + [""] == Split([], sep) + [""];
    } else {
      SplitLast(s[1..], sep);
      assert (s + [sep])[1..] == s[1..] + [sep];
    }
  }

  /** The first part is empty exactly when the text is, or begins with the separator. */
  lemma SplitHead(s: string, sep: char)
    ensures Split(s, sep)[0] == "" <==> s == "" || s[0] == sep
  {
  }

  lemma {:induction false} SplitTail(s: string, sep: char)
    ensures var p := Split(s, sep); p[|p| - 1] == "" <==> s == "" || s[|s| - 1] == sep
  {
    if s != "" {
      var p := Split(s[1..], sep);
      SplitTail(s[1..], sep);
      if |s| == 1 { assert s[1..] == ""; }
    }
  }
}
