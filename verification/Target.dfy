/** Reading an investigation target: a Telegram handle, a t.me link or a numeric id. */
module Target {
  import opened Options
  import opened Text

  // ----- normalize_username -----

  /** `[a-z0-9_.]` */
  predicate IsKept(c: char) { 'a' <= c <= 'z' || IsDigit(c) || c == '_' || c == '.' }

  function HostPrefixes(): (r: seq<string>)
    ensures |r| == 3
  {
    ["t.me/", "telegram.me/", "telegram.dog/"]
  }

  predicate IsHttp(v: string) { StartsWith(v, "http://") || StartsWith(v, "https://") }

  /** `netloc + "/" + path.lstrip("/")` of an http URL. `None`: urlsplit raises ValueError. */
  function NetlocAndPath(v: string): Option<string>
    requires IsHttp(v)
  {
    var rest := Keep(v[if StartsWith(v, "http://") then 7 else 8..], IsUnbroken);
    var netloc := Until(rest, {'/', '?', '#'});
    if HasAny(netloc, {'['}) != HasAny(netloc, {']'}) then None
    else Some(netloc + "/" + DropWhile(Until(rest[|netloc|..], {'?', '#'}), IsSlash))
  }

  /** What urlsplit does not drop from a URL. */
  predicate IsUnbroken(c: char) { c != '\t' && c != '\r' && c != '\n' }

  predicate IsSlash(c: char) { c == '/' }

  predicate IsAt(c: char) { c == '@' }

  function WithoutHost(v: string): string {
    if StartsWith(v, "t.me/") then v[5..]
    else if StartsWith(v, "telegram.me/") then v[12..]
    else if StartsWith(v, "telegram.dog/") then v[13..]
    else v
  }

  /** The handle in what follows the host, before anything is dropped from it. */
  function Segment(v: string): string {
    Until(Until(DropWhile(v, IsAt), {'/'}), {'?'})
  }

  function Unwrapped(value: string): Option<string> {
    var v := Lower(Strip(value));
    if IsHttp(v) then NetlocAndPath(v) else Some(v)
  }

  function Normalized(value: string): Option<string> {
    match Unwrapped(value)
    case None => None
    case Some(v) => Some(Keep(Segment(WithoutHost(v)), IsKept))
  }

  method NormalizeUsername(value: string) returns (r: Option<string>)
    ensures r == Normalized(value)
  {
    var v := Lower(Strip(value));
    if IsHttp(v) {
      var split := NetlocAndPath(v);
      if split.None? { return None; }
      v := split.value;
    }
    ghost var whole := v;
    for i := 0 to 3
      invariant v == whole && forall j :: 0 <= j < i ==> !StartsWith(v, HostPrefixes()[j])
      invariant i == 3 ==> WithoutHost(whole) == v
    {
      if StartsWith(v, HostPrefixes()[i]) {
        v := v[|HostPrefixes()[i]|..];
        PrefixTaken(whole, i);
        break;
      }
      if i == 2 { NoPrefixTaken(whole); }
    }
    r := Some(Keep(Segment(v), IsKept));
  }

  lemma PrefixTaken(v: string, i: nat)
    requires i < 3 && StartsWith(v, HostPrefixes()[i]) && forall j :: 0 <= j < i ==> !StartsWith(v, HostPrefixes()[j])
    ensures WithoutHost(v) == v[|HostPrefixes()[i]|..]
  {
    assert i > 0 ==> !StartsWith(v, HostPrefixes()[0]);
    assert i > 1 ==> !StartsWith(v, HostPrefixes()[1]);
  }

  lemma NoPrefixTaken(v: string)
    requires forall j :: 0 <= j < 3 ==> !StartsWith(v, HostPrefixes()[j])
    ensures WithoutHost(v) == v
  {
    assert !StartsWith(v, HostPrefixes()[0]) && !StartsWith(v, HostPrefixes()[1]) && !StartsWith(v, HostPrefixes()[2]);
  }

  // ----- parse_target -----

  datatype Parsed = Username(name: string) | UserId(digits: string)

  function Display(t: Parsed): string {
    match t case Username(name) => "@" + name case UserId(digits) => digits
  }

  predicate IsLetter(c: char) { 'a' <= LowerChar(c) <= 'z' }

  predicate IsSchemeEnd(text: string, k: nat) { k + 3 <= |text| && text[k..k + 3] == "://" }

  /** `^[a-z]+://`, in either case */
  predicate IsUrl(text: string) {
    exists k :: 0 < k <= |text| && IsSchemeEnd(text, k) && All(text[..k], IsLetter)
  }

  predicate IsHost(v: string) {
    StartsWith(v, "t.me/") || StartsWith(v, "telegram.me/") || StartsWith(v, "telegram.dog/")
  }

  /** `^(https?://)?(t.me|telegram.me|telegram.dog)/`, in either case */
  predicate IsLink(text: string) {
    var v := Lower(text);
    || IsHost(v)
    || (StartsWith(v, "http://") && IsHost(v[7..]))
    || (StartsWith(v, "https://") && IsHost(v[8..]))
  }

  /** A run of digits is an id when it has 3 to 15 digits and is positive. */
  predicate IsId(digits: string) { 3 <= |digits| <= 15 && exists i :: 0 <= i < |digits| && digits[i] != '0' }

  /** `^[a-z][a-z0-9_]{3,30}[a-z0-9]$`, and no double underscore */
  predicate IsHandle(s: string) {
    && 5 <= |s| <= 32 && 'a' <= s[0] <= 'z'
    && All(s, c => 'a' <= c <= 'z' || IsDigit(c) || c == '_')
    && s[|s| - 1] != '_'
    && !exists i :: 0 < i < |s| && s[i - 1] == '_' && s[i] == '_'
  }

  predicate IsControl(c: char) { c <= '\U{1f}' || c == '\U{7f}' }

  predicate IsPlain(c: char) { !IsControl(c) }

  predicate IsRejected(text: string) {
    text == "" || |text| > 128 || !All(text, IsPlain) || (IsUrl(text) && !IsLink(text))
  }

  /** What is left after the wrapping: `handle` is what must be digits or a word, `canonical`
      the normalised text. */
  function Decided(handle: string, canonical: string): Option<Parsed> {
    if handle != "" && All(handle, IsDigit) then (if IsId(handle) then Some(UserId(handle)) else None)
    else if handle != "" && All(handle, IsWord) && IsHandle(canonical) then Some(Username(canonical))
    else None
  }

  /** `None`: InvalidTarget is raised, which is a ValueError as the one of urlsplit is. */
  function ParseTarget(raw: Option<string>): Option<Parsed> {
    if raw.None? || IsRejected(Strip(raw.value)) then None
    else
      var text := Strip(raw.value);
      match Normalized(text)
      case None => None
      case Some(canonical) => Decided(if IsLink(text) then canonical else DropWhile(text, IsAt), canonical)
  }

  // ----- Normalising -----

  lemma {:induction false} NormalizedAlphabet(value: string)
    requires Normalized(value).Some?
    ensures All(Normalized(value).value, IsKept)
  {
    KeepHolds(Segment(WithoutHost(Unwrapped(value).value)), IsKept);
  }

  lemma {:induction false} KeptIsSegment(s: string)
    requires All(s, IsKept)
    ensures Segment(s) == s && Keep(s, IsKept) == s
  {
    UntilNone(s, {'/'});
    UntilNone(s, {'?'});
    KeepsAll(s, IsKept);
  }

  lemma {:induction false} KeptIsBare(s: string)
    requires All(s, IsKept)
    ensures !IsHttp(s) && !IsHost(s)
  {
    NoPrefix(s, "http://", 5, IsKept);
    NoPrefix(s, "https://", 6, IsKept);
    NoPrefix(s, "t.me/", 4, IsKept);
    NoPrefix(s, "telegram.me/", 11, IsKept);
    NoPrefix(s, "telegram.dog/", 12, IsKept);
  }

  lemma {:induction false} KeptIsLower(s: string)
    requires All(s, IsKept)
    ensures Strip(s) == s && Lower(s) == s
  {
    StripEnds(s);
    assert Lower(s) == s;
  }

  /** Normalising a normalised username changes nothing. */
  lemma {:induction false} NormalizeIsIdempotent(value: string)
    requires Normalized(value).Some?
    ensures Normalized(Normalized(value).value) == Normalized(value)
  {
    NormalizedAlphabet(value);
    var u := Normalized(value).value;
    KeptIsSegment(u);
    KeptIsBare(u);
    KeptIsLower(u);
    hide Keep, Segment, StartsWith, Strip;
  }

  // ----- The ways to write a handle or an id -----

  /** What a bare word stands for, said without any of the unwrapping. */
  function WordTarget(u: string): Option<Parsed> {
    if u != "" && All(u, IsDigit) then (if IsId(u) then Some(UserId(u)) else None)
    else if IsHandle(Lower(u)) then Some(Username(Lower(u)))
    else None
  }

  lemma {:induction false} LowerWord(u: string)
    requires All(u, IsWord)
    ensures All(Lower(u), IsKept)
  {
  }

  predicate IsLinkHost(d: string) { d == "t.me" || d == "telegram.me" || d == "telegram.dog" }

  lemma {:induction false} SplitScheme(v: string, scheme: string, rest: string)
    requires scheme == "http://" || scheme == "https://"
    requires v == scheme + rest
    ensures IsHttp(v) && v[if StartsWith(v, "http://") then 7 else 8..] == rest
  {
    assert v[..|scheme|] == scheme;
    assert v[|scheme|..] == rest;
    if scheme == "https://" {
      assert v[4] == 's';
      assert v[..7][4] == v[4] && "http://"[4] == ':';
    }
  }

  /** What urlsplit and lstrip make of the path `/l`. */
  function PathOf(l: string): string { DropWhile(Until(l, {'?', '#'}), IsSlash) }

  /** The host and the path of `d/l`. */
  lemma {:induction false} SplitHost(d: string, l: string)
    requires All(d, IsKept) && All(l, IsUnbroken)
    ensures var rest := d + "/" + l;
            && Keep(rest, IsUnbroken) == rest
            && Until(rest, {'/', '?', '#'}) == d
            && DropWhile(Until(rest[|d|..], {'?', '#'}), IsSlash) == PathOf(l)
  {
    var tail := "/" + l;
    var rest := d + "/" + l;
    assert rest == d + tail && rest[|d|..] == tail && tail[1..] == l;
    KeepsAll(rest, IsUnbroken);
    UntilAppend(d, tail, {'/', '?', '#'});
    var p := Until(l, {'?', '#'});
    assert Until(tail, {'?', '#'}) == "/" + p;
    assert ("/" + p)[1..] == p;
  }

  lemma {:induction false} NetlocOfLink(v: string, scheme: string, d: string, l: string)
    requires scheme == "http://" || scheme == "https://"
    requires v == scheme + (d + "/" + l) && All(d, IsKept) && All(l, IsUnbroken)
    ensures IsHttp(v) && NetlocAndPath(v) == Some(d + "/" + PathOf(l))
  {
    SplitScheme(v, scheme, d + "/" + l);
    SplitHost(d, l);
    assert !HasAny(d, {'['}) && !HasAny(d, {']'});
    hide Keep, Until, DropWhile, StartsWith, HasAny, PathOf;
  }

  lemma {:induction false} HostDropped(d: string, l: string)
    requires IsLinkHost(d)
    ensures IsHost(d + "/" + l) && WithoutHost(d + "/" + l) == l && !IsHttp(d + "/" + l)
  {
    var v := d + "/" + l;
    assert v[0] == 't' && v[1] == d[1];
    assert v[..|d| + 1] == d + "/";
    assert v[|d| + 1..] == l;
    if d == "telegram.dog" { assert v[9] == 'd'; }
    if d == "telegram.me" { assert v[9] == 'm'; }
  }

  /** Neither space nor control character. */
  predicate IsInk(c: char) { !IsSpace(c) && !IsControl(c) }

  lemma {:induction false} InkText(text: string, v: string)
    requires v == Lower(text) && All(v, IsInk)
    ensures Strip(text) == text && All(text, IsInk)
  {
    forall i | 0 <= i < |text| ensures IsInk(text[i]) { assert IsInk(v[i]); }
    StripEnds(text);
  }

  /** `w` spells, in either case, a scheme or none, a Telegram host and a slash. */
  ghost predicate IsLinkPrefix(w: string, scheme: string, d: string) {
    scheme in {"", "http://", "https://"} && IsLinkHost(d) && Lower(w) == scheme + d + "/"
  }

  lemma HostIsKept(d: string)
    requires IsLinkHost(d)
    ensures All(d, IsKept)
  {
  }

  /** What can follow a link prefix: no control character, no space at its end. */
  predicate IsTail(u: string) { All(u, IsPlain) && (u == "" || !IsSpace(u[|u| - 1])) }

  lemma {:induction false} LinkLower(w: string, scheme: string, d: string, u: string)
    requires IsLinkPrefix(w, scheme, d)
    ensures Lower(w + u) == scheme + (d + "/" + Lower(u)) && All(d, IsKept)
  {
    LowerAppend(w, u);
    HostIsKept(d);
    hide Lower, All, IsLinkHost;
    assert scheme + d + "/" + Lower(u) == scheme + (d + "/" + Lower(u));
  }

  predicate IsLinkChar(c: char) { IsKept(c) || c == '/' || c == ':' }

  lemma {:induction false} PrefixInk(w: string, scheme: string, d: string)
    requires IsLinkPrefix(w, scheme, d)
    ensures w != "" && All(w, IsInk)
  {
    var v := Lower(w);
    HostIsKept(d);
    assert All(scheme, IsLinkChar) && All(d, IsLinkChar);
    hide IsLinkHost;
    assert All(v, IsLinkChar) && |v| == |scheme| + |d| + 1;
    assert All(v, IsInk);
    InkText(w, v);
  }

  lemma {:induction false} LinkIsPlain(w: string, scheme: string, d: string, u: string)
    requires IsLinkPrefix(w, scheme, d) && IsTail(u)
    ensures Strip(w + u) == w + u && All(w + u, IsPlain) && w + u != ""
  {
    PrefixInk(w, scheme, d);
    hide IsLinkPrefix;
    assert (w + u)[0] == w[0];
    assert (w + u)[|w + u| - 1] == if u == "" then w[|w| - 1] else u[|u| - 1];
    StripEnds(w + u);
    hide Strip;
    forall i | 0 <= i < |w + u| ensures IsPlain((w + u)[i]) {
      if i < |w| { assert IsInk(w[i]); } else { assert IsPlain(u[i - |w|]); }
    }
  }

  lemma LowerUnbroken(u: string)
    requires All(u, IsPlain)
    ensures All(Lower(u), IsUnbroken)
  {
  }

  /** What stands behind the host once a link is unwrapped: behind a scheme, the path. */
  function Behind(scheme: string, u: string): string { if scheme == "" then Lower(u) else PathOf(Lower(u)) }

  lemma {:induction false} LinkUnwraps(w: string, scheme: string, d: string, u: string)
    requires IsLinkPrefix(w, scheme, d) && IsTail(u)
    ensures Unwrapped(w + u) == Some(d + "/" + Behind(scheme, u)) && IsLink(w + u)
  {
    var l := Lower(u);
    LinkLower(w, scheme, d, u);
    LinkIsPlain(w, scheme, d, u);
    LowerUnbroken(u);
    HostDropped(d, l);
    hide Lower, All, Strip, IsHost, NetlocAndPath, StartsWith, PathOf;
    if scheme == "" {
      assert Lower(w + u) == d + "/" + l;
    } else {
      SplitLink(Lower(w + u), scheme, d, l);
      NetlocOfLink(Lower(w + u), scheme, d, l);
    }
  }

  lemma {:induction false} SplitLink(v: string, scheme: string, d: string, l: string)
    requires scheme == "http://" || scheme == "https://"
    requires v == scheme + (d + "/" + l)
    ensures |v| >= 8 && StartsWith(v, scheme) && v[|scheme|..] == d + "/" + l
  {
    assert v[..|scheme|] == scheme;
  }

  /** The handle in a link, and what remains of it. */
  function HandleIn(scheme: string, u: string): string { Segment(Behind(scheme, u)) }

  function Trimmed(scheme: string, u: string): string { Keep(HandleIn(scheme, u), IsKept) }

  lemma {:induction false} LinkNormalizes(w: string, scheme: string, d: string, u: string)
    requires IsLinkPrefix(w, scheme, d) && IsTail(u)
    ensures Normalized(w + u) == Some(Trimmed(scheme, u))
  {
    LinkUnwraps(w, scheme, d, u);
    HostDropped(d, Behind(scheme, u));
    hide Unwrapped, WithoutHost, Segment, Behind, Keep, IsLinkPrefix, IsTail;
  }

  /** What a text over the alphabet is accepted as. */
  function Accepted(k: string): Option<Parsed> {
    if k != "" && All(k, IsDigit) && IsId(k) then Some(UserId(k))
    else if IsHandle(k) then Some(Username(k))
    else None
  }

  lemma {:induction false} DecidedIsAccepted(k: string)
    ensures Decided(k, k) == Accepted(k)
  {
    if IsHandle(k) {
      assert !IsDigit(k[0]);
      assert All(k, IsWord);
    }
  }

  /** Behind a link, characters outside the alphabet are dropped, and what remains is read. */
  lemma {:induction false} LinkIsTrimmed(w: string, scheme: string, d: string, u: string)
    requires IsLinkPrefix(w, scheme, d) && IsTail(u) && |w + u| <= 128
    ensures ParseTarget(Some(w + u)) == Accepted(Trimmed(scheme, u))
  {
    LinkUnwraps(w, scheme, d, u);
    LinkIsPlain(w, scheme, d, u);
    LinkNormalizes(w, scheme, d, u);
    DecidedIsAccepted(Trimmed(scheme, u));
    hide Normalized, IsLink, Strip, IsUrl, All, Decided, Accepted, Trimmed, IsLinkPrefix, IsTail;
  }

  // ----- Links with a scheme and without -----

  lemma {:induction false} UntilUntil(s: string, a: set<char>, b: set<char>)
    ensures Until(Until(s, a), b) == Until(s, a + b)
  {
    if s != [] && s[0] !in a {
      var t := Until(s[1..], a);
      assert ([s[0]] + t)[1..] == t;
      UntilUntil(s[1..], a, b);
    }
  }

  lemma {:induction false} DropUntil(s: string, stops: set<char>)
    requires '@' !in stops
    ensures DropWhile(Until(s, stops), IsAt) == Until(DropWhile(s, IsAt), stops)
  {
    if s != [] && s[0] !in stops {
      var t := Until(s[1..], stops);
      assert ([s[0]] + t)[0] == s[0] && ([s[0]] + t)[1..] == t;
      DropUntil(s[1..], stops);
    }
  }

  /** How the two handles differ: behind a scheme leading slashes are dropped and the fragment
      is cut off; without one a leading slash ends the handle and the fragment stays. */
  lemma {:induction false} HandlesDiffer(u: string)
    ensures StartsWith(u, "/") ==> HandleIn("", u) == ""
    ensures !StartsWith(u, "/") ==> HandleIn("http://", u) == Until(HandleIn("", u), {'#'})
  {
    var l := Lower(u);
    assert u != "" ==> (l[0] == '/' <==> u[0] == '/');
    assert StartsWith(u, "/") <==> u != "" && u[0] == '/' by { assert u != "" ==> u[..1] == [u[0]]; }
    if u != "" && u[0] == '/' {
      assert DropWhile(l, IsAt) == l;
    } else {
      var q := Until(l, {'?', '#'});
      assert PathOf(l) == q;
      var r := DropWhile(l, IsAt);
      DropUntil(l, {'?', '#'});
      hide DropWhile, Until, Lower;
      UntilUntil(r, {'?', '#'}, {'/'});
      UntilUntil(r, {'?', '#', '/'}, {'?'});
      UntilUntil(r, {'/'}, {'?'});
      UntilUntil(r, {'/', '?'}, {'#'});
      assert {'?', '#'} + {'/'} == {'?', '#', '/'} && {'?', '#', '/'} + {'?'} == {'/', '?', '#'};
      assert {'/'} + {'?'} == {'/', '?'} && {'/', '?'} + {'#'} == {'/', '?', '#'};
    }
  }

  lemma {:induction false} SchemesAreAlike(u: string)
    ensures HandleIn("https://", u) == HandleIn("http://", u)
  {
  }

  /** A link with a scheme and one without stand for the same target exactly when the same
      remains of both handles, or neither remainder is acceptable. */
  lemma {:induction false} SchemesAgreeExactly(w: string, d: string, w': string, scheme: string, d': string, u: string)
    requires IsLinkPrefix(w, "", d) && IsLinkPrefix(w', scheme, d') && scheme != ""
    requires IsTail(u) && |w + u| <= 128 && |w' + u| <= 128
    ensures ParseTarget(Some(w + u)) == ParseTarget(Some(w' + u)) <==>
            || Trimmed("", u) == Trimmed(scheme, u)
            || (Accepted(Trimmed("", u)) == None && Accepted(Trimmed(scheme, u)) == None)
  {
    LinkIsTrimmed(w, "", d, u);
    LinkIsTrimmed(w', scheme, d', u);
    hide ParseTarget, Trimmed, IsHandle, IsId, All, IsTail, IsLinkPrefix;
  }

  /** In particular they agree whenever the handle has no fragment and no slash before it. */
  lemma {:induction false} SchemesAgreeWithoutFragment(w: string, d: string, w': string, scheme: string, d': string,
                                                       u: string)
    requires IsLinkPrefix(w, "", d) && IsLinkPrefix(w', scheme, d') && scheme != ""
    requires IsTail(u) && |w + u| <= 128 && |w' + u| <= 128
    requires !StartsWith(u, "/") && !HasAny(HandleIn("", u), {'#'})
    ensures ParseTarget(Some(w + u)) == ParseTarget(Some(w' + u))
  {
    HandlesDiffer(u);
    SchemesAreAlike(u);
    UntilNone(HandleIn("", u), {'#'});
    SchemesAgreeExactly(w, d, w', scheme, d', u);
    hide ParseTarget, HandleIn, IsTail, HasAny, Until, Accepted;
  }

  lemma {:induction false} InkIsFine(text: string)
    requires All(text, IsInk)
    ensures All(text, IsPlain)
  {
  }

  lemma {:induction false} DecidedWord(u: string)
    requires All(u, IsWord)
    ensures Decided(u, Lower(u)) == Decided(Lower(u), Lower(u)) == WordTarget(u)
  {
    LowerDigits(u);
    hide IsHandle, IsId, All, Lower;
    assert u != "" || !IsHandle(Lower(u)) by { NoHandle(u); }
  }

  lemma NoHandle(u: string)
    ensures (u == "" || |u| > 32) ==> !IsHandle(Lower(u))
  {
  }

  lemma {:induction false} WordIsWhole(u: string, scheme: string)
    requires All(u, IsWord)
    ensures IsTail(u) && Trimmed(scheme, u) == Lower(u)
  {
    var l := Lower(u);
    assert IsTail(u);
    LowerWord(u);
    UntilNone(l, {'?', '#'});
    assert PathOf(l) == l;
    KeptIsSegment(l);
    hide Lower, PathOf, Segment, Keep;
  }

  /** A word behind a link. */
  lemma {:induction false} LinkForm(w: string, scheme: string, d: string, u: string)
    requires IsLinkPrefix(w, scheme, d) && All(u, IsWord)
    ensures ParseTarget(Some(w + u)) == WordTarget(u)
  {
    WordIsWhole(u, scheme);
    DecidedWord(u);
    DecidedIsAccepted(Lower(u));
    LongIsNone(u);
    assert |Lower(w)| <= 21;
    hide Lower, All, Decided, Accepted, WordTarget, IsTail, Trimmed;
    if |w + u| <= 128 { LinkIsTrimmed(w, scheme, d, u); } else { LinkTooLong(w, scheme, d, u); }
  }

  lemma {:induction false} LinkTooLong(w: string, scheme: string, d: string, u: string)
    requires IsLinkPrefix(w, scheme, d) && IsTail(u) && |w + u| > 128
    ensures ParseTarget(Some(w + u)) == None
  {
    LinkIsPlain(w, scheme, d, u);
    hide Strip, Normalized, IsLinkPrefix, IsTail;
  }

  lemma {:induction false} LongIsNone(u: string)
    ensures |u| > 32 ==> WordTarget(u) == None
  {
    NoHandle(u);
  }

  lemma {:induction false} LowerDigits(u: string)
    requires All(u, IsWord)
    ensures All(u, IsDigit) <==> All(Lower(u), IsDigit)
    ensures All(u, IsDigit) ==> Lower(u) == u
    ensures All(Lower(u), IsWord)
  {
    if All(Lower(u), IsDigit) {
      forall i | 0 <= i < |u| ensures IsDigit(u[i]) { assert IsDigit(Lower(u)[i]); }
    }
  }

  // ----- Handles without a link -----

  predicate IsWordOrAt(c: char) { IsWord(c) || c == '@' }

  lemma {:induction false} WordBehindAts(text: string)
    requires All(DropWhile(text, IsAt), IsWord)
    ensures All(text, IsWordOrAt) && DropWhile(Lower(text), IsAt) == Lower(DropWhile(text, IsAt))
  {
    if text != [] {
      assert Lower(text)[0] == '@' <==> text[0] == '@';
      if text[0] == '@' {
        WordBehindAts(text[1..]);
        assert Lower(text)[1..] == Lower(text[1..]);
        assert forall i :: 1 <= i < |text| ==> text[i] == text[1..][i - 1];
      }
    }
  }

  lemma {:induction false} NoLink(text: string)
    requires All(text, IsWordOrAt)
    ensures !IsUrl(text) && !IsLink(text) && !IsHttp(Lower(text)) && !IsHost(Lower(text)) && Strip(text) == text &&
            All(text, IsInk)
  {
    var v := Lower(text);
    assert All(v, IsWordOrAt);
    NoPrefix(v, "http://", 5, IsWordOrAt);
    NoPrefix(v, "https://", 6, IsWordOrAt);
    NoPrefix(v, "t.me/", 4, IsWordOrAt);
    NoPrefix(v, "telegram.me/", 11, IsWordOrAt);
    NoPrefix(v, "telegram.dog/", 12, IsWordOrAt);
    InkText(text, v);
    forall k | 0 < k <= |text| ensures !IsSchemeEnd(text, k) {
      if k + 3 <= |text| {
        assert text[k..k + 3][0] == text[k];
        assert IsWordOrAt(text[k]);
      }
    }
  }

  lemma {:induction false} BareNormalizes(text: string)
    requires All(DropWhile(text, IsAt), IsWord)
    ensures Normalized(text) == Some(Lower(DropWhile(text, IsAt)))
  {
    var l := Lower(DropWhile(text, IsAt));
    WordBehindAts(text);
    NoLink(text);
    LowerWord(DropWhile(text, IsAt));
    KeptIsSegment(l);
    assert WithoutHost(Lower(text)) == Lower(text);
    assert Segment(Lower(text)) == Until(Until(l, {'/'}), {'?'});
    UntilNone(l, {'/'});
    UntilNone(l, {'?'});
  }

  /** A word behind any number of @ signs. */
  lemma {:induction false} BareForm(text: string)
    requires All(DropWhile(text, IsAt), IsWord) && |text| <= 128
    ensures ParseTarget(Some(text)) == WordTarget(DropWhile(text, IsAt))
  {
    var u := DropWhile(text, IsAt);
    WordBehindAts(text);
    NoLink(text);
    BareNormalizes(text);
    InkIsFine(text);
    DecidedWord(u);
    assert text == "" ==> u == "";
    LongIsNone(u);
    EmptyIsNone();
    hide Normalized, IsLink, Strip, Lower, IsUrl, All, Decided, WordTarget, DropWhile;
  }

  lemma EmptyIsNone()
    ensures WordTarget("") == None
  {
    NoHandle("");
  }

  /** The word itself, behind an @, and behind a t.me link with or without scheme, in either
      case, all stand for the same target, or for none. */
  lemma {:induction false} FormsAgree(u: string, w: string, scheme: string, d: string)
    requires All(u, IsWord) && IsLinkPrefix(w, scheme, d)
    ensures ParseTarget(Some(u)) == ParseTarget(Some("@" + u)) == ParseTarget(Some(w + u)) == WordTarget(u)
  {
    LinkForm(w, scheme, d, u);
    assert ("@" + u)[1..] == u;
    assert DropWhile(u, IsAt) == u;
    assert DropWhile("@" + u, IsAt) == u;
    if |u| < 128 {
      BareForm(u);
      BareForm("@" + u);
    } else {
      TooLong(u);
      TooLong("@" + u);
    }
  }

  lemma {:induction false} TooLong(text: string)
    requires |text| >= 128 && All(DropWhile(text, IsAt), IsWord)
    ensures |DropWhile(text, IsAt)| > 32 ==> ParseTarget(Some(text)) == None == WordTarget(DropWhile(text, IsAt))
  {
    WordBehindAts(text);
    NoLink(text);
    if |text| == 128 { BareForm(text); }
    hide Strip, Normalized;
  }

  // ----- What is accepted -----

  lemma {:induction false} HandleIsWord(name: string)
    requires IsHandle(name)
    ensures All(name, IsWord) && Lower(name) == name && WordTarget(name) == Some(Username(name))
  {
    assert Lower(name) == name;
    assert !IsDigit(name[0]);
  }

  /** Every accepted username meets the grammar, every accepted id is a positive run of 3 to
      15 digits, and reading back what is displayed gives the same target. */
  lemma {:induction false} DisplayParsesBack(raw: Option<string>)
    requires ParseTarget(raw).Some?
    ensures var t := ParseTarget(raw).value;
            && (match t
                case Username(name) => IsHandle(name)
                case UserId(digits) => All(digits, IsDigit) && IsId(digits))
            && ParseTarget(Some(Display(t))) == Some(t)
  {
    var t := ParseTarget(raw).value;
    hide Normalized, IsRejected, IsLink, Strip, DropWhile;
    match t
    case Username(name) => UsernameParsesBack(name);
    case UserId(digits) => UserIdParsesBack(digits);
  }

  lemma {:induction false} UsernameParsesBack(name: string)
    requires IsHandle(name)
    ensures ParseTarget(Some("@" + name)) == Some(Username(name))
  {
    HandleIsWord(name);
    assert ("@" + name)[1..] == name;
    assert DropWhile(name, IsAt) == name;
    assert DropWhile("@" + name, IsAt) == name;
    BareForm("@" + name);
    hide ParseTarget, WordTarget, All, IsHandle;
  }

  lemma {:induction false} UserIdParsesBack(digits: string)
    requires IsId(digits) && All(digits, IsDigit)
    ensures ParseTarget(Some(digits)) == Some(UserId(digits))
  {
    assert DropWhile(digits, IsAt) == digits;
    BareForm(digits);
    hide ParseTarget, All;
  }

  /** Without a link nothing is dropped: what is accepted is a word behind @ signs. */
  lemma {:induction false} BareIsNeverTrimmed(raw: string)
    requires !IsLink(Strip(raw)) && ParseTarget(Some(raw)).Some?
    ensures var u := DropWhile(Strip(raw), IsAt);
            All(u, IsWord) && ParseTarget(Some(raw)) == WordTarget(u)
  {
    var text := Strip(raw);
    var u := DropWhile(text, IsAt);
    assert All(u, IsDigit) ==> All(u, IsWord);
    assert All(u, IsWord) by { hide Strip, IsLink, Normalized, Lower, IsHandle, IsId, DropWhile; }
    BareNormalizes(text);
    DecidedWord(u);
    hide Strip, IsLink, Normalized, Lower, WordTarget, Decided, DropWhile, All;
  }

  /** A link and the text behind it, where that is no link itself, stand for the same target
      exactly when the text is a word behind @ signs or what remains of it behind the link is
      not acceptable. */
  lemma {:induction false} LinkAgreesExactly(w: string, scheme: string, d: string, u: string)
    requires IsLinkPrefix(w, scheme, d) && IsTail(u) && Strip(u) == u && !IsLink(u) && |w + u| <= 128
    ensures ParseTarget(Some(w + u)) == ParseTarget(Some(u)) <==>
            All(DropWhile(u, IsAt), IsWord) || Accepted(Trimmed(scheme, u)) == None
  {
    LinkIsTrimmed(w, scheme, d, u);
    hide IsTail, Trimmed, ParseTarget, Accepted, WordTarget, IsLink, Strip, DropWhile;
    if All(DropWhile(u, IsAt), IsWord) {
      AtsTrimmed(u, scheme);
      BareForm(u);
      DecidedWord(DropWhile(u, IsAt));
      DecidedIsAccepted(Lower(DropWhile(u, IsAt)));
    } else if ParseTarget(Some(u)).Some? {
      BareIsNeverTrimmed(u);
    }
  }

  lemma {:induction false} AtsTrimmed(u: string, scheme: string)
    requires All(DropWhile(u, IsAt), IsWord)
    ensures Trimmed(scheme, u) == Lower(DropWhile(u, IsAt))
  {
    var l, r := Lower(u), Lower(DropWhile(u, IsAt));
    WordBehindAts(u);
    LowerWord(DropWhile(u, IsAt));
    assert All(l, IsWordOrAt);
    UntilNone(l, {'?', '#'});
    assert PathOf(l) == l;
    UntilNone(r, {'/'});
    UntilNone(r, {'?'});
    KeepsAll(r, IsKept);
  }

  /** With a fragment the two kinds of link are read differently: without a scheme its
      characters join the handle. */
  lemma {:induction false} FragmentIsReadTwice(w: string, d: string, w': string, scheme: string, d': string,
                                               a: string, c: string)
    requires IsLinkPrefix(w, "", d) && IsLinkPrefix(w', scheme, d') && scheme != ""
    requires IsHandle(a) && IsHandle(a + c) && c != ""
    ensures ParseTarget(Some(w + (a + "#" + c))) == Some(Username(a + c))
    ensures ParseTarget(Some(w' + (a + "#" + c))) == Some(Username(a))
  {
    var u := a + "#" + c;
    FragmentTail(a, c);
    FragmentTrims(a, c, scheme);
    AcceptedHandle(a);
    AcceptedHandle(a + c);
    PrefixSize(w, "", d);
    PrefixSize(w', scheme, d');
    assert |a| <= 32 && |a + c| <= 32 && a != "";
    hide ParseTarget, Trimmed, IsHandle, All, Accepted, IsTail, IsLinkPrefix;
    LinkIsTrimmed(w, "", d, u);
    LinkIsTrimmed(w', scheme, d', u);
  }

  lemma PrefixSize(w: string, scheme: string, d: string)
    requires IsLinkPrefix(w, scheme, d)
    ensures |w| <= 21
  {
    assert |w| == |Lower(w)|;
  }

  lemma AcceptedHandle(a: string)
    requires IsHandle(a)
    ensures Accepted(a) == Some(Username(a))
  {
    assert !IsDigit(a[0]);
  }

  lemma {:induction false} FragmentTail(a: string, c: string)
    requires IsHandle(a + c) && c != ""
    ensures IsTail(a + "#" + c) && All(a, IsKept) && All(c, IsKept)
  {
    var u := a + "#" + c;
    assert forall i :: 0 <= i < |a| ==> a[i] == (a + c)[i];
    assert forall i :: 0 <= i < |c| ==> c[i] == (a + c)[|a| + i];
    assert All(a, IsKept) && All(c, IsKept);
    hide IsHandle;
    assert forall i :: 0 <= i < |u| ==> IsKept(u[i]) || u[i] == '#';
    assert u[|u| - 1] == c[|c| - 1];
  }

  lemma {:induction false} OneDropped(a: string, x: char, c: string)
    requires All(a, IsKept) && All(c, IsKept) && !IsKept(x)
    ensures Keep(a + [x] + c, IsKept) == a + c
  {
    KeepAppend(a + [x], c, IsKept);
    KeepAppend(a, [x], IsKept);
    KeepsAll(a, IsKept);
    KeepsAll(c, IsKept);
    assert Keep([x], IsKept) == [];
    hide Keep, All;
    assert a + [] + c == a + c;
  }

  lemma {:induction false} FragmentWhole(a: string, c: string)
    requires All(a, IsKept) && All(c, IsKept) && a != ""
    ensures var u := a + "#" + c; Lower(u) == u && Segment(u) == u && PathOf(u) == a
  {
    var u := a + "#" + c;
    assert forall i :: 0 <= i < |u| ==> IsKept(u[i]) || u[i] == '#';
    assert Lower(u) == u;
    UntilNone(u, {'/'});
    UntilNone(u, {'?'});
    assert u[0] == a[0] && IsKept(a[0]);
    assert u == a + ("#" + c);
    UntilAppend(a, "#" + c, {'?', '#'});
    hide Until, Lower, All;
  }

  lemma {:induction false} FragmentTrims(a: string, c: string, scheme: string)
    requires All(a, IsKept) && All(c, IsKept) && a != "" && scheme != ""
    ensures Trimmed("", a + "#" + c) == a + c && Trimmed(scheme, a + "#" + c) == a
  {
    FragmentWhole(a, c);
    OneDropped(a, '#', c);
    KeptIsSegment(a);
    hide Lower, Segment, PathOf, Keep, All;
  }

  /** The concrete input: the same link is `abcdefrag` without a scheme and `abcde` with one. */
  lemma {:induction false} FragmentExample()
    ensures ParseTarget(Some("t.me/" + ("abcde" + "#" + "frag"))) == Some(Username("abcde" + "frag"))
    ensures ParseTarget(Some("https://t.me/" + ("abcde" + "#" + "frag"))) == Some(Username("abcde"))
  {
    hide ParseTarget;
    CommonPrefixes();
    FragmentIsReadTwice("t.me/", "t.me", "https://t.me/", "https://", "t.me", "abcde", "frag");
  }

  lemma CommonPrefixes()
    ensures IsLinkPrefix("t.me/", "", "t.me") && IsLinkPrefix("https://t.me/", "https://", "t.me")
  {
    assert Lower("t.me/") == "" + "t.me" + "/";
    assert Lower("https://t.me/") == "https://" + "t.me" + "/";
  }

  /** With a slash before the handle, only the link with a scheme is accepted. */
  lemma {:induction false} SlashIsReadTwice(w: string, d: string, w': string, scheme: string, d': string, a: string)
    requires IsLinkPrefix(w, "", d) && IsLinkPrefix(w', scheme, d') && scheme != "" && IsHandle(a)
    ensures ParseTarget(Some(w + ("/" + a))) == None
    ensures ParseTarget(Some(w' + ("/" + a))) == Some(Username(a))
  {
    var u := "/" + a;
    HandleIsWord(a);
    SlashTrims(a, scheme);
    AcceptedHandle(a);
    SlashTail(a);
    PrefixSize(w, "", d);
    PrefixSize(w', scheme, d');
    assert |a| <= 32 && Accepted("") == None;
    hide ParseTarget, Trimmed, IsHandle, All, Accepted, IsTail, IsLinkPrefix;
    LinkIsTrimmed(w, "", d, u);
    LinkIsTrimmed(w', scheme, d', u);
  }

  lemma {:induction false} SlashTail(a: string)
    requires All(a, IsWord) && a != ""
    ensures IsTail("/" + a)
  {
    var u := "/" + a;
    assert u[|u| - 1] == a[|a| - 1];
    assert forall i :: 0 <= i < |u| ==> IsWord(u[i]) || u[i] == '/';
  }

  lemma {:induction false} SlashTrims(a: string, scheme: string)
    requires All(a, IsWord) && Lower(a) == a && a != "" && scheme != ""
    ensures Trimmed("", "/" + a) == "" && Trimmed(scheme, "/" + a) == a
  {
    var u := "/" + a;
    LowerWord(a);
    SlashPath(a);
    HandlesDiffer(u);
    assert StartsWith(u, "/");
    KeptIsSegment(a);
    hide Segment, PathOf, Lower, All;
  }

  lemma {:induction false} SlashPath(a: string)
    requires All(a, IsKept) && Lower(a) == a && a != ""
    ensures Lower("/" + a) == "/" + a && PathOf("/" + a) == a
  {
    var u := "/" + a;
    assert forall i :: 0 <= i < |u| ==> LowerChar(u[i]) == if i == 0 then '/' else LowerChar(a[i - 1]);
    assert Lower(u) == u;
    assert forall i :: 0 <= i < |u| ==> IsKept(u[i]) || u[i] == '/';
    UntilNone(u, {'?', '#'});
    assert u[1..] == a && IsKept(a[0]);
    assert DropWhile(a, IsSlash) == a;
    hide Until, Lower;
  }

  lemma {:induction false} TrimmedSegment(d: string, u: string, name: string)
    requires IsLinkHost(d) && IsTail(u) && Strip(u) == u && !IsLink(u) && |d + "/" + u| <= 128
    requires !All(DropWhile(u, IsAt), IsWord) && Trimmed("", u) == name && IsHandle(name)
    ensures ParseTarget(Some(d + "/" + u)) == Some(Username(name)) && ParseTarget(Some(u)) == None
  {
    assert Lower(d + "/") == "" + d + "/" by { HostIsKept(d); assert All(d + "/", c => LowerChar(c) == c); }
    hide ParseTarget, IsTail, Trimmed, Lower, Strip, IsLink, DropWhile, WordTarget, IsHandle;
    LinkIsTrimmed(d + "/", "", d, u);
    AcceptedHandle(name);
    if ParseTarget(Some(u)).Some? { BareIsNeverTrimmed(u); }
  }

  /** So a link to `bad-name` is read as `badname`, although `bad-name` is not accepted. */
  lemma {:induction false} BadNameIsTrimmed()
    ensures ParseTarget(Some("t.me" + "/" + "bad-name")) == Some(Username("badname")) &&
            ParseTarget(Some("bad-name")) == None
  {
    hide ParseTarget, Keep, Segment;
    var u := "bad-name";
    assert !IsWord(u[3]);
    assert DropWhile(u, IsAt) == u;
    assert Lower(u) == u;
    BadNameKept();
    BadNameSegment();
    NotALink();
    StripEnds(u);
    hide Lower, DropWhile, Strip, IsLink;
    TrimmedSegment("t.me", u, "badname");
  }

  lemma {:induction false} BadNameSegment()
    ensures Segment("bad-name") == "bad-name"
  {
    UntilNone("bad-name", {'/'});
    UntilNone("bad-name", {'?'});
  }

  lemma {:induction false} NotALink()
    ensures !IsLink("bad-name")
  {
    assert Lower("bad-name")[0] == 'b';
  }

  lemma {:induction false} BadNameKept()
    ensures Keep("bad-name", IsKept) == "badname"
  {
    assert "bad-name" == "bad" + ['-'] + "name";
    OneDropped("bad", '-', "name");
    hide Keep;
    assert "bad" + "name" == "badname";
  }

  /** Nothing is dropped exactly when the handle in the link is over the alphabet. */
  lemma LinkKeptWhole(text: string)
    requires Unwrapped(text).Some?
    ensures var h := Segment(WithoutHost(Unwrapped(text).value)); Normalized(text) == Some(h) <==> All(h, IsKept)
  {
    KeepsAll(Segment(WithoutHost(Unwrapped(text).value)), IsKept);
  }
}
